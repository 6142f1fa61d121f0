/**
 The work of a MapReduce job: partitioning map output into intermediate files, and gathering,
 sorting, grouping and reducing it; and the sequential program that says what a job means.
 */
module MapReduce {
  import opened FlatMaps

  datatype KeyValue = KeyValue(key: string, value: string)

  type MapFunction = (string, string) -> seq<KeyValue>
  type ReduceFunction = (string, seq<string>) -> string
  type Hash = string -> nat

  // ---------------------------------------------------------------- order

  /** Strings in lexicographic order. */
  predicate Less(a: string, b: string) {
    if b == [] then false
    else if a == [] then true
    else a[0] < b[0] || (a[0] == b[0] && Less(a[1..], b[1..]))
  }

  /** The strings part at index k, where the first has ended or has the smaller character. */
  ghost predicate PartAt(a: string, b: string, k: nat) {
    k <= |a| && k < |b| && a[..k] == b[..k] && (k == |a| || a[k] < b[k])
  }

  lemma PartLater(a: string, b: string, k: nat)
    requires a != [] && b != [] && a[0] == b[0]
    ensures PartAt(a[1..], b[1..], k) <==> PartAt(a, b, k + 1)
  {
    assert a == [a[0]] + a[1..] && b == [b[0]] + b[1..];
    if k + 1 <= |a| && k + 1 <= |b| {
      assert a[..k + 1] == [a[0]] + a[1..][..k] && b[..k + 1] == [b[0]] + b[1..][..k];
      assert a[..k + 1][1..] == a[1..][..k] && b[..k + 1][1..] == b[1..][..k];
    }
  }

  /** The order of keys is that of the first character in which they differ, a prefix coming first. */
  lemma {:induction false} LessIff(a: string, b: string)
    ensures Less(a, b) <==> exists k: nat :: PartAt(a, b, k)
  {
    if a == [] || b == [] || a[0] != b[0] {
      assert PartAt(a, b, 0) <==> Less(a, b);
      assert forall k: nat :: PartAt(a, b, k) && k > 0 ==> a[..k][0] == b[..k][0];
    } else {
      LessIff(a[1..], b[1..]);
      forall k: nat
        ensures PartAt(a[1..], b[1..], k) <==> PartAt(a, b, k + 1)
      {
        PartLater(a, b, k);
      }
      if k: nat :| PartAt(a, b, k) {
        assert k > 0;
        assert PartAt(a[1..], b[1..], k - 1);
      }
    }
  }

  lemma {:induction false} Trichotomy(a: string, b: string)
    ensures Less(a, b) || Less(b, a) || a == b
  {
    if a != [] && b != [] {
      Trichotomy(a[1..], b[1..]);
      assert a == [a[0]] + a[1..] && b == [b[0]] + b[1..];
    }
  }

  lemma {:induction false} Asymmetric(a: string, b: string)
    ensures Less(a, b) ==> !Less(b, a)
  {
    if a != [] && b != [] {
      Asymmetric(a[1..], b[1..]);
    }
  }

  lemma {:induction false} NotLessTransitive(a: string, b: string, c: string)
    requires !Less(b, a) && !Less(c, b)
    ensures !Less(c, a)
  {
    if a != [] && b != [] && c != [] && a[0] == b[0] == c[0] {
      NotLessTransitive(a[1..], b[1..], c[1..]);
    }
  }

  ghost predicate KeySorted(kva: seq<KeyValue>) {
    forall i, j :: 0 <= i < j < |kva| ==> !Less(kva[j].key, kva[i].key)
  }

  method Insert(sorted: seq<KeyValue>, kv: KeyValue) returns (r: seq<KeyValue>)
    requires KeySorted(sorted)
    ensures KeySorted(r) && multiset(r) == multiset(sorted) + multiset{kv}
  {
    hide Less;
    var p: nat := |sorted|;
    while p > 0 && Less(kv.key, sorted[p - 1].key)
      invariant p <= |sorted|
      invariant forall j :: p <= j < |sorted| ==> Less(kv.key, sorted[j].key)
    {
      p := p - 1;
    }
    r := sorted[..p] + [kv] + sorted[p..];
    assert sorted == sorted[..p] + sorted[p..];
    forall i | 0 <= i < p - 1
      ensures !Less(kv.key, sorted[i].key)
    {
      NotLessTransitive(sorted[i].key, sorted[p - 1].key, kv.key);
    }
    forall j | p <= j < |sorted|
      ensures !Less(sorted[j].key, kv.key)
    {
      Asymmetric(kv.key, sorted[j].key);
    }
  }

  /** Any arrangement by key: which one is not promised, because the sort is not stable. */
  method SortByKey(kva: seq<KeyValue>) returns (sorted: seq<KeyValue>)
    ensures KeySorted(sorted) && multiset(sorted) == multiset(kva)
  {
    sorted := [];
    for n := 0 to |kva|
      invariant KeySorted(sorted) && multiset(sorted) == multiset(kva[..n])
    {
      assert kva[..n + 1] == kva[..n] + [kva[n]];
      sorted := Insert(sorted, kva[n]);
    }
    assert kva[..|kva|] == kva;
  }

  // ---------------------------------------------------------------- grouping

  datatype Result = Result(key: string, output: string)

  function Values(kva: seq<KeyValue>): seq<string> {
    if kva == [] then [] else Values(kva[..|kva| - 1]) + [kva[|kva| - 1].value]
  }

  /** Where the run of equal keys that starts at i and reaches at least to j ends. */
  function RunEnd(kva: seq<KeyValue>, i: nat, j: nat): (end: nat)
    requires i < j <= |kva|
    ensures j <= end <= |kva|
    decreases |kva| - j
  {
    if j < |kva| && kva[j].key == kva[i].key then RunEnd(kva, i, j + 1) else j
  }

  /** One result per run of equal keys, from index i on. */
  function Grouped(reducef: ReduceFunction, kva: seq<KeyValue>, i: nat): seq<Result>
    requires i <= |kva|
    decreases |kva| - i
  {
    if i == |kva| then []
    else
      var j := RunEnd(kva, i, i + 1);
      [Result(kva[i].key, reducef(kva[i].key, Values(kva[i..j])))] + Grouped(reducef, kva, j)
  }

  function Line(r: Result): string {
    r.key + " " + r.output + "\n"
  }

  function LineOf(r: Result): seq<string> {
    [Line(r)]
  }

  function Lines(results: seq<Result>): seq<string> {
    FlatMap(results, LineOf)
  }

  lemma LinesFrom(reducef: ReduceFunction, kva: seq<KeyValue>, i: nat)
    requires i <= |kva|
    ensures i == |kva| ==> Lines(Grouped(reducef, kva, i)) == []
    ensures i < |kva| ==>
      var j := RunEnd(kva, i, i + 1);
      var first := Result(kva[i].key, reducef(kva[i].key, Values(kva[i..j])));
      Lines(Grouped(reducef, kva, i)) == [Line(first)] + Lines(Grouped(reducef, kva, j))
  {
    if i < |kva| {
      var j := RunEnd(kva, i, i + 1);
      var first := Result(kva[i].key, reducef(kva[i].key, Values(kva[i..j])));
      FlatMapConcat([first], Grouped(reducef, kva, j), LineOf);
      FlatMapOne([], first, LineOf);
      assert [] + [first] == [first];
    }
  }

  method FindRunEnd(intermediate: seq<KeyValue>, i: nat) returns (j: nat)
    requires i < |intermediate|
    ensures j == RunEnd(intermediate, i, i + 1)
  {
    j := i + 1;
    while j < |intermediate| && intermediate[j].key == intermediate[i].key
      invariant i < j <= |intermediate| && RunEnd(intermediate, i, j) == RunEnd(intermediate, i, i + 1)
    {
      j := j + 1;
    }
  }

  method CollectValues(intermediate: seq<KeyValue>, i: nat, j: nat) returns (values: seq<string>)
    requires i <= j <= |intermediate|
    ensures values == Values(intermediate[i..j])
  {
    values := [];
    for k := i to j
      invariant values == Values(intermediate[i..k])
    {
      assert intermediate[i..k + 1][..k - i] == intermediate[i..k];
      values := values + [intermediate[k].value];
    }
  }

  /** The grouping loops that the worker and the sequential program share. */
  method GroupReduce(reducef: ReduceFunction, intermediate: seq<KeyValue>) returns (lines: seq<string>)
    ensures lines == Lines(Grouped(reducef, intermediate, 0))
  {
    hide RunEnd, Grouped, Lines, Line, Values;
    lines := [];
    var i := 0;
    while i < |intermediate|
      invariant 0 <= i <= |intermediate|
      invariant lines + Lines(Grouped(reducef, intermediate, i)) == Lines(Grouped(reducef, intermediate, 0))
    {
      LinesFrom(reducef, intermediate, i);
      var j := FindRunEnd(intermediate, i);
      var values := CollectValues(intermediate, i, j);
      var output := reducef(intermediate[i].key, values);
      ghost var rest := Lines(Grouped(reducef, intermediate, j));
      assert lines + ([Line(Result(intermediate[i].key, output))] + rest)
             == (lines + [Line(Result(intermediate[i].key, output))]) + rest;
      lines, i := lines + [Line(Result(intermediate[i].key, output))], j;
    }
    LinesFrom(reducef, intermediate, i);
  }

  // ---------------------------------------------------------------- what a job means

  function At(key: string): KeyValue -> seq<string> {
    (kv: KeyValue) => if kv.key == key then [kv.value] else []
  }

  /** The values emitted for a key. */
  function ValuesOf(kva: seq<KeyValue>, key: string): seq<string> {
    FlatMap(kva, At(key))
  }

  ghost function Keys(kva: seq<KeyValue>): set<string> {
    set kv | kv in kva :: kv.key
  }

  ghost function ResultFor(reducef: ReduceFunction, kva: seq<KeyValue>, key: string): Result {
    Result(key, reducef(key, ValuesOf(kva, key)))
  }

  /** One result for each key emitted, from all the values emitted for it. */
  ghost function Meaning(reducef: ReduceFunction, kva: seq<KeyValue>): set<Result> {
    set key | key in Keys(kva) :: ResultFor(reducef, kva, key)
  }

  lemma {:induction false} RunOfOneKey(kva: seq<KeyValue>, key: string)
    ensures (forall kv :: kv in kva ==> kv.key == key) ==> ValuesOf(kva, key) == Values(kva)
    ensures key !in Keys(kva) ==> ValuesOf(kva, key) == []
  {
    if kva != [] {
      RunOfOneKey(kva[..|kva| - 1], key);
      assert kva[|kva| - 1] in kva;
    }
  }

  lemma {:induction false} RunEndSpec(kva: seq<KeyValue>, i: nat, j: nat)
    requires i < j <= |kva| && forall k :: i <= k < j ==> kva[k].key == kva[i].key
    ensures forall k :: i <= k < RunEnd(kva, i, j) ==> kva[k].key == kva[i].key
    ensures RunEnd(kva, i, j) < |kva| ==> kva[RunEnd(kva, i, j)].key != kva[i].key
    decreases |kva| - j
  {
    if j < |kva| && kva[j].key == kva[i].key {
      RunEndSpec(kva, i, j + 1);
    }
  }

  /** A key that is followed by another in a sorted sequence does not come back. */
  lemma KeyIsGone(kva: seq<KeyValue>, i: nat, j: nat, k: nat)
    requires i < j <= k < |kva| && KeySorted(kva) && kva[j].key != kva[i].key
    ensures kva[k].key != kva[i].key
  {
    hide Less;
    Trichotomy(kva[i].key, kva[j].key);
    assert !Less(kva[j].key, kva[i].key) && (j < k ==> !Less(kva[k].key, kva[j].key));
  }

  /** In a sorted sequence a key does not come back after its run. */
  lemma RunIsAll(kva: seq<KeyValue>, i: nat)
    requires i < |kva| && KeySorted(kva)
    ensures var j := RunEnd(kva, i, i + 1);
            && (forall kv :: kv in kva[i..j] ==> kv.key == kva[i].key)
            && kva[i].key !in Keys(kva[j..])
  {
    hide KeySorted, Less, RunEnd;
    RunEndSpec(kva, i, i + 1);
    var j := RunEnd(kva, i, i + 1);
    forall k | j <= k < |kva|
      ensures kva[k].key != kva[i].key
    {
      KeyIsGone(kva, i, j, k);
    }
  }

  lemma InMeaning(reducef: ReduceFunction, kva: seq<KeyValue>, p: Result)
    ensures p in Meaning(reducef, kva)
            <==> p.key in Keys(kva) && p == Result(p.key, reducef(p.key, ValuesOf(kva, p.key)))
  {
  }

  lemma SplitKeys(run: seq<KeyValue>, rest: seq<KeyValue>, key: string)
    requires run != [] && forall kv :: kv in run ==> kv.key == key
    ensures Keys(run) == {key} && Keys(run + rest) == {key} + Keys(rest)
  {
    assert run[0] in run;
  }

  lemma SplitValues(run: seq<KeyValue>, rest: seq<KeyValue>, key: string, k: string)
    requires run != [] && (forall kv :: kv in run ==> kv.key == key) && key !in Keys(rest)
    ensures ValuesOf(run + rest, k) == if k == key then Values(run) else ValuesOf(rest, k)
  {
    SplitKeys(run, rest, key);
    FlatMapConcat(run, rest, At(k));
    RunOfOneKey(run, k);
    RunOfOneKey(rest, k);
  }

  lemma SplitMeaning(reducef: ReduceFunction, kva: seq<KeyValue>, i: nat)
    requires i < |kva| && KeySorted(kva)
    ensures var j := RunEnd(kva, i, i + 1);
            var first := Result(kva[i].key, reducef(kva[i].key, Values(kva[i..j])));
            && Meaning(reducef, kva[i..]) == {first} + Meaning(reducef, kva[j..])
            && first !in Meaning(reducef, kva[j..])
  {
    hide RunEnd, KeySorted, Keys, Values, ValuesOf, Meaning;
    var j, key := RunEnd(kva, i, i + 1), kva[i].key;
    var run, rest := kva[i..j], kva[j..];
    RunIsAll(kva, i);
    assert kva[i..] == run + rest;
    SplitKeys(run, rest, key);
    var first := Result(key, reducef(key, Values(run)));
    forall p
      ensures p in Meaning(reducef, kva[i..]) <==> p == first || p in Meaning(reducef, rest)
    {
      SplitValues(run, rest, key, p.key);
      InMeaning(reducef, kva[i..], p);
      InMeaning(reducef, rest, p);
    }
    InMeaning(reducef, rest, first);
  }

  /** Grouping sorted pairs gives each result of the job once. */
  lemma {:induction false} GroupedMeaning(reducef: ReduceFunction, kva: seq<KeyValue>, i: nat)
    requires i <= |kva| && KeySorted(kva)
    ensures multiset(Grouped(reducef, kva, i)) == multiset(Meaning(reducef, kva[i..]))
    decreases |kva| - i
  {
    if i < |kva| {
      hide Meaning;
      GroupedMeaning(reducef, kva, RunEnd(kva, i, i + 1));
      SplitMeaning(reducef, kva, i);
    }
  }

  /** A reduce function that does not look at the order of the values. */
  ghost predicate Symmetric(reducef: ReduceFunction) {
    forall key, vs, vs' | multiset(vs) == multiset(vs') :: reducef(key, vs) == reducef(key, vs')
  }

  lemma MeaningPermutes(reducef: ReduceFunction, kva: seq<KeyValue>, kva': seq<KeyValue>)
    requires Symmetric(reducef) && multiset(kva) == multiset(kva')
    ensures Meaning(reducef, kva) == Meaning(reducef, kva')
  {
    assert Keys(kva) == Keys(kva') by {
      assert forall kv :: kv in kva <==> kv in multiset(kva);
      assert forall kv :: kv in kva' <==> kv in multiset(kva');
    }
    forall key
      ensures ResultFor(reducef, kva, key) == ResultFor(reducef, kva', key)
    {
      FlatMapPermutes(kva, kva', At(key));
    }
  }

  ghost predicate IsArrangement(sorted: seq<KeyValue>, kva: seq<KeyValue>) {
    KeySorted(sorted) && multiset(sorted) == multiset(kva)
  }

  /** The lines are what sorting, in some order of equal keys, and grouping make of the pairs. */
  ghost predicate IsOutput(reducef: ReduceFunction, kva: seq<KeyValue>, lines: seq<string>) {
    exists sorted :: IsArrangement(sorted, kva) && lines == Lines(Grouped(reducef, sorted, 0))
  }

  /** Lines, with their multiplicity, that a set of results prints. */
  ghost predicate Prints(results: set<Result>, lines: seq<string>) {
    exists rs: seq<Result> :: multiset(rs) == multiset(results) && lines == Lines(rs)
  }

  lemma OutputPrintsMeaning(reducef: ReduceFunction, kva: seq<KeyValue>, lines: seq<string>)
    requires Symmetric(reducef) && IsOutput(reducef, kva, lines)
    ensures Prints(Meaning(reducef, kva), lines)
  {
    hide Symmetric, Meaning, Grouped, Lines;
    var sorted :| IsArrangement(sorted, kva) && lines == Lines(Grouped(reducef, sorted, 0));
    GroupedMeaning(reducef, sorted, 0);
    assert sorted[0..] == sorted;
    MeaningPermutes(reducef, sorted, kva);
  }
}

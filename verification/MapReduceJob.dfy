/**
 A distributed MapReduce job on shared files, and the proof that it prints what the sequential
 program prints.
 */
module MapReduceJob {
  import opened FlatMaps
  import opened MapReduce

  /** Intermediate files by map task and partition. */
  type Files = map<(nat, nat), seq<KeyValue>>

  function Partition(hash: Hash, nReduce: nat, key: string): (r: nat)
    requires nReduce > 0
    ensures r < nReduce
  {
    hash(key) % nReduce
  }

  function InPart(hash: Hash, nReduce: nat, r: nat): KeyValue -> seq<KeyValue>
    requires nReduce > 0
  {
    (kv: KeyValue) => if Partition(hash, nReduce, kv.key) == r then [kv] else []
  }

  /** The pairs that belong to partition r. */
  function Part(kva: seq<KeyValue>, hash: Hash, nReduce: nat, r: nat): seq<KeyValue>
    requires nReduce > 0
  {
    FlatMap(kva, InPart(hash, nReduce, r))
  }

  function Names(id: nat, n: nat): set<(nat, nat)> {
    set i: nat | i < n :: (id, i)
  }

  /** The files after a map task has run to its end, whatever was there before. */
  function Mapped(files: Files, id: nat, nReduce: nat, hash: Hash, kva: seq<KeyValue>): Files
    requires nReduce > 0
  {
    map f: (nat, nat) | f in files.Keys + Names(id, nReduce) ::
      if f.0 == id && f.1 < nReduce then Part(kva, hash, nReduce, f.1) else files[f]
  }

  function Emptied(files: Files, id: nat, n: nat): Files {
    map f: (nat, nat) | f in files.Keys + Names(id, n) :: if f.0 == id && f.1 < n then [] else files[f]
  }

  lemma EmptiedStepwise(files: Files, id: nat, hash: Hash)
    ensures Emptied(files, id, 0) == files
    ensures forall i: nat :: Emptied(files, id, i)[(id, i) := []] == Emptied(files, id, i + 1)
    ensures forall n: nat | n > 0 :: Emptied(files, id, n) == Mapped(files, id, n, hash, [])
  {
    forall i: nat
      ensures Emptied(files, id, i)[(id, i) := []] == Emptied(files, id, i + 1)
    {
      assert Names(id, i + 1) == Names(id, i) + {(id, i)};
    }
  }

  lemma PartOneMore(kva: seq<KeyValue>, kv: KeyValue, hash: Hash, nReduce: nat, r: nat)
    requires nReduce > 0
    ensures Part(kva + [kv], hash, nReduce, r)
         == if Partition(hash, nReduce, kv.key) == r then Part(kva, hash, nReduce, r) + [kv]
             else Part(kva, hash, nReduce, r)
  {
    hide Partition;
    FlatMapOne(kva, kv, InPart(hash, nReduce, r));
    assert FlatMap(kva, InPart(hash, nReduce, r)) + [] == FlatMap(kva, InPart(hash, nReduce, r));
  }

  lemma OneMorePair(files: Files, id: nat, nReduce: nat, hash: Hash, kva: seq<KeyValue>, kv: KeyValue)
    requires nReduce > 0
    ensures var f := (id, Partition(hash, nReduce, kv.key));
            && f in Mapped(files, id, nReduce, hash, kva)
            && Mapped(files, id, nReduce, hash, kva + [kv])
               == Mapped(files, id, nReduce, hash, kva)[f := Mapped(files, id, nReduce, hash, kva)[f] + [kv]]
  {
    hide Partition, Part;
    forall r: nat
      ensures Part(kva + [kv], hash, nReduce, r)
           == if Partition(hash, nReduce, kv.key) == r then Part(kva, hash, nReduce, r) + [kv]
               else Part(kva, hash, nReduce, r)
    {
      PartOneMore(kva, kv, hash, nReduce, r);
    }
  }

  /** The file holds, in order, the pairs at these places, which are those whose key hashes to r. */
  ghost predicate PicksOut(kva: seq<KeyValue>, hash: Hash, nReduce: nat, r: nat, at: seq<nat>, file: seq<KeyValue>)
    requires nReduce > 0
  {
    && |at| == |file|
    && (forall j, k :: 0 <= j < k < |at| ==> at[j] < at[k])
    && (forall k :: 0 <= k < |at| ==> at[k] < |kva| && file[k] == kva[at[k]])
    && (forall i: nat :: i < |kva| ==> (i in at <==> hash(kva[i].key) % nReduce == r))
  }

  ghost predicate HoldsItsPairs(kva: seq<KeyValue>, hash: Hash, nReduce: nat, r: nat, file: seq<KeyValue>)
    requires nReduce > 0
  {
    exists at :: PicksOut(kva, hash, nReduce, r, at, file)
  }

  lemma OneMorePicked(kva: seq<KeyValue>, kv: KeyValue, hash: Hash, nReduce: nat, r: nat, at: seq<nat>,
                      file: seq<KeyValue>)
    requires nReduce > 0 && PicksOut(kva, hash, nReduce, r, at, file)
    ensures if hash(kv.key) % nReduce == r then PicksOut(kva + [kv], hash, nReduce, r, at + [|kva|], file + [kv])
            else PicksOut(kva + [kv], hash, nReduce, r, at, file)
  {
  }

  lemma NothingPicked(hash: Hash, nReduce: nat, r: nat)
    requires nReduce > 0
    ensures PicksOut([], hash, nReduce, r, [], [])
  {
  }

  lemma NothingInPart(hash: Hash, nReduce: nat, r: nat)
    requires nReduce > 0
    ensures Part([], hash, nReduce, r) == []
  {
  }

  /** A pair goes to the file its hashed key names, and each file keeps the order in which pairs were emitted. */
  lemma {:induction false} PartHoldsItsPairs(kva: seq<KeyValue>, hash: Hash, nReduce: nat, r: nat)
    requires nReduce > 0
    ensures HoldsItsPairs(kva, hash, nReduce, r, Part(kva, hash, nReduce, r))
  {
    hide Part, PicksOut;
    if kva == [] {
      NothingInPart(hash, nReduce, r);
      NothingPicked(hash, nReduce, r);
    } else {
      var before, kv := kva[..|kva| - 1], kva[|kva| - 1];
      assert kva == before + [kv];
      PartHoldsItsPairs(before, hash, nReduce, r);
      var at :| PicksOut(before, hash, nReduce, r, at, Part(before, hash, nReduce, r));
      PartOneMore(before, kv, hash, nReduce, r);
      OneMorePicked(before, kv, hash, nReduce, r, at, Part(before, hash, nReduce, r));
    }
  }

  lemma MappedHolds(files: Files, id: nat, nReduce: nat, hash: Hash, kva: seq<KeyValue>)
    requires nReduce > 0
    ensures var files' := Mapped(files, id, nReduce, hash, kva);
            && (forall r: nat :: r < nReduce ==>
                  (id, r) in files' && HoldsItsPairs(kva, hash, nReduce, r, files'[(id, r)]))
            && (forall f :: f in files && f.0 != id ==> f in files' && files'[f] == files[f])
  {
    hide HoldsItsPairs, Part;
    forall r: nat
      ensures HoldsItsPairs(kva, hash, nReduce, r, Part(kva, hash, nReduce, r))
    {
      PartHoldsItsPairs(kva, hash, nReduce, r);
    }
  }

  /** The pairs a reduce task reads, in the order of the map tasks. */
  function Gather(files: Files, nMap: nat, r: nat): seq<KeyValue>
    requires forall m: nat :: m < nMap ==> (m, r) in files
  {
    if nMap == 0 then [] else Gather(files, nMap - 1, r) + files[(nMap - 1, r)]
  }

  /** All pairs emitted by the first k map tasks. */
  function Emitted(kvas: seq<seq<KeyValue>>, k: nat): seq<KeyValue>
    requires k <= |kvas|
  {
    if k == 0 then [] else Emitted(kvas, k - 1) + kvas[k - 1]
  }

  /** What the map function emits for each input, given its name and its content. */
  function MapOutputs(mapf: MapFunction, inputs: seq<(string, string)>): (kvas: seq<seq<KeyValue>>)
    ensures |kvas| == |inputs|
    ensures forall i, name, content :: 0 <= i < |inputs| && inputs[i] == (name, content) ==>
              kvas[i] == mapf(name, content)
  {
    seq(|inputs|, i requires 0 <= i < |inputs| => mapf(inputs[i].0, inputs[i].1))
  }

  // ---------------------------------------------------------------- the programs

  method SortAndReduce(reducef: ReduceFunction, intermediate: seq<KeyValue>) returns (lines: seq<string>)
    ensures IsOutput(reducef, intermediate, lines)
  {
    hide Grouped, Lines, KeySorted;
    var sorted := SortByKey(intermediate);
    lines := GroupReduce(reducef, sorted);
    assert IsArrangement(sorted, intermediate);
  }

  class FileSystem {
    var intermediate: Files
    var outputs: map<nat, seq<string>>

    method DoMap(mapf: MapFunction, hash: Hash, fileName: string, content: string, nReduce: nat, id: nat)
      requires nReduce > 0
      modifies this`intermediate
      ensures intermediate == Mapped(old(intermediate), id, nReduce, hash, mapf(fileName, content))
      ensures forall r: nat :: r < nReduce ==>
                && (id, r) in intermediate
                && HoldsItsPairs(mapf(fileName, content), hash, nReduce, r, intermediate[(id, r)])
      ensures forall f :: f in old(intermediate) && f.0 != id ==>
                f in intermediate && intermediate[f] == old(intermediate)[f]
    {
      hide Partition, Part, Emptied, Mapped, HoldsItsPairs;
      var kva := mapf(fileName, content);
      ghost var before := intermediate;
      EmptiedStepwise(before, id, hash);
      for i := 0 to nReduce
        invariant intermediate == Emptied(before, id, i)
      {
        intermediate := intermediate[(id, i) := []];
      }
      assert kva[..0] == [];
      for k := 0 to |kva|
        invariant intermediate == Mapped(before, id, nReduce, hash, kva[..k])
      {
        OneMorePair(before, id, nReduce, hash, kva[..k], kva[k]);
        assert kva[..k + 1] == kva[..k] + [kva[k]];
        var file := (id, Partition(hash, nReduce, kva[k].key));
        intermediate := intermediate[file := intermediate[file] + [kva[k]]];
      }
      assert kva[..|kva|] == kva;
      MappedHolds(before, id, nReduce, hash, kva);
    }

    /** `ok` is false when an intermediate file is missing, which stops the worker. */
    method DoReduce(reducef: ReduceFunction, id: nat, nMap: nat) returns (ok: bool)
      modifies this`outputs
      ensures ok <==> forall m: nat :: m < nMap ==> (m, id) in intermediate
      ensures !ok ==> outputs == old(outputs)
      ensures ok ==>
              exists lines :: IsOutput(reducef, Gather(intermediate, nMap, id), lines)
                  && outputs == old(outputs)[id := lines]
    {
      var gathered: seq<KeyValue> := [];
      for i := 0 to nMap
        invariant forall m: nat :: m < i ==> (m, id) in intermediate
        invariant gathered == Gather(intermediate, i, id)
      {
        if (i, id) !in intermediate {
          return false;
        }
        gathered := gathered + intermediate[(i, id)];
      }
      var lines := SortAndReduce(reducef, gathered);
      outputs := outputs[id := lines];
      ok := true;
    }
  }

  /** The sequential program. */
  method Sequential(mapf: MapFunction, reducef: ReduceFunction, inputs: seq<(string, string)>)
    returns (lines: seq<string>)
    ensures IsOutput(reducef, Emitted(MapOutputs(mapf, inputs), |inputs|), lines)
  {
    var intermediate: seq<KeyValue> := [];
    for i := 0 to |inputs|
      invariant intermediate == Emitted(MapOutputs(mapf, inputs), i)
    {
      var kva := mapf(inputs[i].0, inputs[i].1);
      intermediate := intermediate + kva;
    }
    lines := SortAndReduce(reducef, intermediate);
  }

  // ---------------------------------------------------------------- what a reduce task reads

  lemma PartConcat(kva: seq<KeyValue>, kva': seq<KeyValue>, hash: Hash, nReduce: nat, r: nat)
    requires nReduce > 0
    ensures Part(kva + kva', hash, nReduce, r) == Part(kva, hash, nReduce, r) + Part(kva', hash, nReduce, r)
  {
    FlatMapConcat(kva, kva', InPart(hash, nReduce, r));
  }

  lemma SomethingInPart(kva: seq<KeyValue>, hash: Hash, nReduce: nat, i: nat)
    requires nReduce > 0 && i < |kva|
    ensures Part(kva, hash, nReduce, Partition(hash, nReduce, kva[i].key)) != []
  {
    FlatMapMember(kva, InPart(hash, nReduce, Partition(hash, nReduce, kva[i].key)), kva[i]);
  }

  lemma {:induction false} GatherIsPart(files: Files, kvas: seq<seq<KeyValue>>, hash: Hash, nReduce: nat, r: nat,
                                        k: nat)
    requires nReduce > 0 && k <= |kvas|
    requires forall m: nat :: m < k ==> (m, r) in files && files[(m, r)] == Part(kvas[m], hash, nReduce, r)
    ensures Gather(files, k, r) == Part(Emitted(kvas, k), hash, nReduce, r)
  {
    hide Part;
    if k == 0 {
      NothingInPart(hash, nReduce, r);
    } else {
      GatherIsPart(files, kvas, hash, nReduce, r, k - 1);
      PartConcat(Emitted(kvas, k - 1), kvas[k - 1], hash, nReduce, r);
    }
  }

  // ---------------------------------------------------------------- the meaning of a partition

  lemma {:induction false} ValuesOfPart(kva: seq<KeyValue>, hash: Hash, nReduce: nat, r: nat, key: string)
    requires nReduce > 0 && Partition(hash, nReduce, key) == r
    ensures ValuesOf(Part(kva, hash, nReduce, r), key) == ValuesOf(kva, key)
  {
    hide Partition;
    if kva != [] {
      var before, kv := kva[..|kva| - 1], kva[|kva| - 1];
      ValuesOfPart(before, hash, nReduce, r, key);
      assert kva == before + [kv];
      PartOneMore(before, kv, hash, nReduce, r);
      FlatMapOne(Part(before, hash, nReduce, r), kv, At(key));
      FlatMapOne(before, kv, At(key));
      hide Part, FlatMap;
      assert kv.key != key ==> At(key)(kv) == [];
      assert ValuesOf(before, key) + [] == ValuesOf(before, key);
    }
  }

  lemma KeysOfPart(kva: seq<KeyValue>, hash: Hash, nReduce: nat, r: nat)
    requires nReduce > 0
    ensures forall key ::
              key in Keys(Part(kva, hash, nReduce, r)) <==> key in Keys(kva) && Partition(hash, nReduce, key) == r
  {
    hide Partition;
    forall kv
      ensures kv in Part(kva, hash, nReduce, r) <==> kv in kva && Partition(hash, nReduce, kv.key) == r
    {
      FlatMapMember(kva, InPart(hash, nReduce, r), kv);
    }
  }

  /** Of the results of a job, those whose key falls in a partition below k. */
  ghost function Below(results: set<Result>, hash: Hash, nReduce: nat, k: nat): set<Result>
    requires nReduce > 0
  {
    set p | p in results && Partition(hash, nReduce, p.key) < k
  }

  /** A partition adds exactly the results whose key falls in it. */
  lemma PartMeaning(reducef: ReduceFunction, kva: seq<KeyValue>, hash: Hash, nReduce: nat, r: nat)
    requires nReduce > 0
    ensures var all, part := Meaning(reducef, kva), Meaning(reducef, Part(kva, hash, nReduce, r));
            && Below(all, hash, nReduce, r + 1) == Below(all, hash, nReduce, r) + part
            && Below(all, hash, nReduce, r) !! part
  {
    KeysOfPart(kva, hash, nReduce, r);
    forall key | Partition(hash, nReduce, key) == r
      ensures ResultFor(reducef, Part(kva, hash, nReduce, r), key) == ResultFor(reducef, kva, key)
    {
      ValuesOfPart(kva, hash, nReduce, r, key);
    }
    hide Partition, Part, Keys, ValuesOf;
    var part := Meaning(reducef, Part(kva, hash, nReduce, r));
    assert forall p :: p in part <==> p in Meaning(reducef, kva) && Partition(hash, nReduce, p.key) == r;
  }

  lemma DisjointUnion<T>(a: set<T>, b: set<T>)
    requires a !! b
    ensures multiset(a + b) == multiset(a) + multiset(b)
  {
    forall x
      ensures multiset(a + b)[x] == (multiset(a) + multiset(b))[x]
    {
    }
  }

  lemma PrintsBoth(a: set<Result>, la: seq<string>, b: set<Result>, lb: seq<string>)
    requires Prints(a, la) && Prints(b, lb) && a !! b
    ensures Prints(a + b, la + lb)
  {
    var ra: seq<Result> :| multiset(ra) == multiset(a) && la == Lines(ra);
    var rb: seq<Result> :| multiset(rb) == multiset(b) && lb == Lines(rb);
    assert Lines(ra + rb) == Lines(ra) + Lines(rb) by {
      FlatMapConcat(ra, rb, LineOf);
    }
    hide Lines;
    DisjointUnion(a, b);
    assert multiset(ra + rb) == multiset(a + b) && la + lb == Lines(ra + rb);
  }

  lemma PrintedOneWay(a: set<Result>, lines: seq<string>, lines': seq<string>)
    requires Prints(a, lines) && Prints(a, lines')
    ensures multiset(lines) == multiset(lines')
  {
    var rs: seq<Result> :| multiset(rs) == multiset(a) && lines == Lines(rs);
    var rs': seq<Result> :| multiset(rs') == multiset(a) && lines' == Lines(rs');
    FlatMapPermutes(rs, rs', LineOf);
  }

  function Concat(outs: seq<seq<string>>): seq<string> {
    if outs == [] then [] else Concat(outs[..|outs| - 1]) + outs[|outs| - 1]
  }

  lemma {:induction false} PartsPrint(reducef: ReduceFunction, kva: seq<KeyValue>, hash: Hash, nReduce: nat,
                                      outs: seq<seq<string>>)
    requires nReduce > 0 && |outs| <= nReduce && Symmetric(reducef)
    requires forall r: nat :: r < |outs| ==> IsOutput(reducef, Part(kva, hash, nReduce, r), outs[r])
    ensures Prints(Below(Meaning(reducef, kva), hash, nReduce, |outs|), Concat(outs))
  {
    hide Symmetric, IsOutput, Meaning, Part;
    var all := Meaning(reducef, kva);
    if outs == [] {
      assert Below(all, hash, nReduce, 0) == {};
      var none: seq<Result> := [];
      assert multiset(none) == multiset(Below(all, hash, nReduce, 0)) && Lines(none) == [];
    } else {
      hide Prints, Below;
      var r := |outs| - 1;
      PartsPrint(reducef, kva, hash, nReduce, outs[..r]);
      OutputPrintsMeaning(reducef, Part(kva, hash, nReduce, r), outs[r]);
      PartMeaning(reducef, kva, hash, nReduce, r);
      PrintsBoth(Below(all, hash, nReduce, r), Concat(outs[..r]), Meaning(reducef, Part(kva, hash, nReduce, r)),
          outs[r]);
    }
  }

  /** Outputs of all partitions together are an output of the whole. */
  lemma PartsAreSequential(reducef: ReduceFunction, kva: seq<KeyValue>, hash: Hash, nReduce: nat,
                           outs: seq<seq<string>>, whole: seq<string>)
    requires nReduce > 0 && |outs| == nReduce && Symmetric(reducef)
    requires forall r: nat :: r < nReduce ==> IsOutput(reducef, Part(kva, hash, nReduce, r), outs[r])
    requires IsOutput(reducef, kva, whole)
    ensures multiset(Concat(outs)) == multiset(whole)
  {
    hide IsOutput, Symmetric, Prints, Meaning, Part, Concat;
    PartsPrint(reducef, kva, hash, nReduce, outs);
    assert Below(Meaning(reducef, kva), hash, nReduce, nReduce) == Meaning(reducef, kva);
    OutputPrintsMeaning(reducef, kva, whole);
    PrintedOneWay(Meaning(reducef, kva), Concat(outs), whole);
  }

  // ---------------------------------------------------------------- why the reduce function must be symmetric

  function Paired(key: string): string -> seq<KeyValue> {
    (v: string) => [KeyValue(key, v)]
  }

  lemma NoValues()
    ensures Values([]) == []
  {
  }

  lemma ValuesOneMore(kva: seq<KeyValue>, kv: KeyValue)
    ensures Values(kva + [kv]) == Values(kva) + [kv.value]
  {
    assert (kva + [kv])[..|kva|] == kva;
  }

  lemma {:induction false} PairsOfOneKey(key: string, vs: seq<string>)
    ensures var kva := FlatMap(vs, Paired(key));
            Values(kva) == vs && |kva| == |vs| && forall i :: 0 <= i < |kva| ==> kva[i].key == key
  {
    hide FlatMap, Values;
    if vs == [] {
      FlatMapNone(Paired(key));
      NoValues();
    } else {
      var before, v := vs[..|vs| - 1], vs[|vs| - 1];
      assert vs == before + [v];
      PairsOfOneKey(key, before);
      FlatMapOne(before, v, Paired(key));
      ValuesOneMore(FlatMap(before, Paired(key)), KeyValue(key, v));
    }
  }

  /** The values of one key, in the order they come, make one line. */
  lemma OneKeyOutput(reducef: ReduceFunction, key: string, vs: seq<string>)
    requires vs != []
    ensures IsArrangement(FlatMap(vs, Paired(key)), FlatMap(vs, Paired(key)))
    ensures Lines(Grouped(reducef, FlatMap(vs, Paired(key)), 0)) == [Line(Result(key, reducef(key, vs)))]
  {
    hide FlatMap, Lines, Grouped, Less, Values, Line;
    var kva := FlatMap(vs, Paired(key));
    PairsOfOneKey(key, vs);
    Asymmetric(key, key);
    RunEndSpec(kva, 0, 1);
    LinesFrom(reducef, kva, 0);
    LinesFrom(reducef, kva, |kva|);
    assert kva[0..|kva|] == kva;
  }

  ghost predicate OneOutput(reducef: ReduceFunction) {
    forall kva, lines, lines' | IsOutput(reducef, kva, lines)
        && IsOutput(reducef, kva, lines') :: multiset(lines) == multiset(lines')
  }

  lemma UniqueIsSymmetric(reducef: ReduceFunction, key: string, vs: seq<string>, vs': seq<string>)
    requires OneOutput(reducef) && multiset(vs) == multiset(vs')
    ensures reducef(key, vs) == reducef(key, vs')
  {
    if vs == [] {
      assert |multiset(vs')| == 0;
    } else {
      assert |multiset(vs)| == |multiset(vs')|;
      var kva, kva' := FlatMap(vs, Paired(key)), FlatMap(vs', Paired(key));
      var line, line' := Line(Result(key, reducef(key, vs))), Line(Result(key, reducef(key, vs')));
      OneKeyOutput(reducef, key, vs);
      OneKeyOutput(reducef, key, vs');
      FlatMapPermutes(vs, vs', Paired(key));
      assert IsArrangement(kva', kva);
      assert IsOutput(reducef, kva, [line]) && IsOutput(reducef, kva, [line']);
      assert line in multiset([line]);
      assert line == line';
      assert line[|key| + 1..|line| - 1] == reducef(key, vs);
    }
  }

  /** Sorting in whatever order of equal keys gives the same lines exactly when the reduce function is symmetric. */
  lemma OneOutputIff(reducef: ReduceFunction)
    ensures OneOutput(reducef) <==> Symmetric(reducef)
  {
    if Symmetric(reducef) {
      forall kva, lines, lines' | IsOutput(reducef, kva, lines) && IsOutput(reducef, kva, lines')
        ensures multiset(lines) == multiset(lines')
      {
        OutputPrintsMeaning(reducef, kva, lines);
        OutputPrintsMeaning(reducef, kva, lines');
        PrintedOneWay(Meaning(reducef, kva), lines, lines');
      }
    } else if OneOutput(reducef) {
      forall key, vs, vs' | multiset(vs) == multiset(vs')
        ensures reducef(key, vs) == reducef(key, vs')
      {
        UniqueIsSymmetric(reducef, key, vs, vs');
      }
    }
  }
}

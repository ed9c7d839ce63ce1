/** The cache over the chunk file: what DB_GET gives back is not the object that DB_PUT was handed but that object
    as it reads back (ChunkStore.Store.Get), so `load` stands between the store and a cell that is filled from it.
    Every run then still answers as one plain map does, up to one reading back. */
module CacheOverFile {
  import opened Wrappers
  import opened CacheSpec
  import opened CacheProof
  import opened CacheLost
  import PackSpec
  import PackProof

  /** cache_get, a miss filled with what the file gives back. */
  function GetOver<T>(s: State<T>, oid: int, load: T -> T): (State<T>, Option<T>)
    requires |s.buckets| > 0
  {
    if oid < 0 then (s, None)
    else
      var hv := Bucket(s, oid);
      var c := s.buckets[hv];
      var a := Index(c.active, oid, true);
      var i := Index(c.inactive, oid, true);
      if a < |c.active| then (s, c.active[a].op)
      else if i < |c.inactive| then
        (s.(buckets := s.buckets[hv := Promoted(c, i, s.resets)]), c.inactive[i].op)
      else if oid !in s.store then (s, None)
      else
        var obj := load(s.store[oid]);
        (LinkNew(s, hv, Slot(oid, Some(obj), false, false, s.resets)), Some(obj))
  }

  function StepOver<T>(s: State<T>, op: Op<T>, load: T -> T): (State<T>, Answer<T>)
    requires |s.buckets| > 0
  {
    if op.OGet? then (var r := GetOver(s, op.oid, load); (r.0, Object(r.1))) else Step(s, op)
  }

  // ---------------------------------------------------------------- the same cache, but for clean cells

  /** y is x, or x read back once. */
  predicate Reread<T(==)>(x: Option<T>, y: Option<T>, load: T -> T) {
    y == x || (x.Some? && y == Some(load(x.value)))
  }

  /** Two cells that differ in nothing but that the object of a clean one may have been read back. */
  ghost predicate Alike<T>(a: Slot<T>, b: Slot<T>, load: T -> T) {
    b == a.(op := b.op) && Reread(a.op, b.op, load) && (a.dirty ==> b.op == a.op)
  }

  ghost predicate AllAlike<T>(a: seq<Slot<T>>, b: seq<Slot<T>>, load: T -> T) {
    |a| == |b| && forall i :: 0 <= i < |a| ==> Alike(a[i], b[i], load)
  }

  ghost predicate ChainsAlike<T>(a: Chains<T>, b: Chains<T>, load: T -> T) {
    AllAlike(a.active, b.active, load) && AllAlike(a.inactive, b.inactive, load)
  }

  ghost predicate StatesAlike<T>(s: State<T>, t: State<T>, load: T -> T) {
    && |s.buckets| == |t.buckets| && s.store == t.store && s.resets == t.resets
    && forall b :: 0 <= b < |s.buckets| ==> ChainsAlike(s.buckets[b], t.buckets[b], load)
  }

  lemma {:induction false} SameIndex<T>(a: seq<Slot<T>>, b: seq<Slot<T>>, load: T -> T, oid: int, live: bool)
    requires AllAlike(a, b, load)
    ensures Index(a, oid, live) == Index(b, oid, live)
  {
    var k := Index(a, oid, live);
    assert forall i :: 0 <= i < |a| ==> Alike(a[i], b[i], load);
    FirstIs(b, oid, live, k);
  }

  /** One bucket changed alike, and the stores still the same. */
  lemma ChangedAlike<T>(s: State<T>, t: State<T>, load: T -> T, b: nat, c: Chains<T>, d: Chains<T>, store: map<int, T>, resets: int)
    requires StatesAlike(s, t, load) && b < |s.buckets| && ChainsAlike(c, d, load)
    ensures StatesAlike(State(s.buckets[b := c], store, resets), State(t.buckets[b := d], store, resets), load)
  {
  }

  /** A new cell pushes out the same object, if any: only dirty cells are written, and those are the same. */
  lemma LinkedAlike<T>(s: State<T>, t: State<T>, load: T -> T, hv: nat, v: Slot<T>, w: Slot<T>)
    requires StatesAlike(s, t, load) && hv < |s.buckets| && Alike(v, w, load)
    ensures StatesAlike(LinkNew(s, hv, v), LinkNew(t, hv, w), load)
  {
    var c, d := s.buckets[hv], t.buckets[hv];
    assert ChainsAlike(c, d, load);
    var n := |c.inactive|;
    if n > 0 { assert Alike(c.inactive[n - 1], d.inactive[n - 1], load); }
    assert ChainsAlike(Entered(c, v), Entered(d, w), load);
    ChangedAlike(s, t, load, hv, Entered(c, v), Entered(d, w), WriteBack(s.store, PushedOut(c)), s.resets);
  }

  lemma GetAlike<T>(s: State<T>, t: State<T>, load: T -> T, oid: int)
    requires StatesAlike(s, t, load) && |s.buckets| > 0
    ensures StatesAlike(Get(s, oid).0, GetOver(t, oid, load).0, load) && Reread(Get(s, oid).1, GetOver(t, oid, load).1, load)
  {
    hide Index, LinkNew;
    if oid >= 0 {
      var hv := Bucket(s, oid);
      var c, d := s.buckets[hv], t.buckets[hv];
      assert ChainsAlike(c, d, load);
      SameIndex(c.active, d.active, load, oid, true);
      SameIndex(c.inactive, d.inactive, load, oid, true);
      var a, i := Index(c.active, oid, true), Index(c.inactive, oid, true);
      if a < |c.active| {
        assert Alike(c.active[a], d.active[a], load);
      } else if i < |c.inactive| {
        assert Alike(c.inactive[i], d.inactive[i], load);
        assert ChainsAlike(Promoted(c, i, s.resets), Promoted(d, i, s.resets), load);
        ChangedAlike(s, t, load, hv, Promoted(c, i, s.resets), Promoted(d, i, s.resets), s.store, s.resets);
      } else if oid in s.store {
        var x := s.store[oid];
        LinkedAlike(s, t, load, hv, Slot(oid, Some(x), false, false, s.resets), Slot(oid, Some(load(x)), false, false, s.resets));
      }
    }
  }

  lemma PutAlike<T>(s: State<T>, t: State<T>, load: T -> T, obj: T, oid: int)
    requires StatesAlike(s, t, load) && |s.buckets| > 0
    ensures StatesAlike(Put(s, obj, oid), Put(t, obj, oid), load)
  {
    if oid >= 0 {
      var hv := Bucket(s, oid);
      var c, d := s.buckets[hv], t.buckets[hv];
      assert ChainsAlike(c, d, load);
      SameIndex(c.active, d.active, load, oid, false);
      SameIndex(c.inactive, d.inactive, load, oid, false);
      var a, i := Index(c.active, oid, false), Index(c.inactive, oid, false);
      if a < |c.active| {
        assert ChainsAlike(Stored(c, true, a, obj), Stored(d, true, a, obj), load);
        ChangedAlike(s, t, load, hv, Stored(c, true, a, obj), Stored(d, true, a, obj), s.store, s.resets);
      } else if i < |c.inactive| {
        assert ChainsAlike(Stored(c, false, i, obj), Stored(d, false, i, obj), load);
        ChangedAlike(s, t, load, hv, Stored(c, false, i, obj), Stored(d, false, i, obj), s.store, s.resets);
      } else {
        var cell := Slot(oid, Some(obj), true, false, s.resets);
        LinkedAlike(s, t, load, hv, cell, cell);
      }
    }
  }

  lemma KillAlike<T>(a: seq<Slot<T>>, b: seq<Slot<T>>, load: T -> T, oid: int)
    requires AllAlike(a, b, load)
    ensures AllAlike(Kill(a, oid), Kill(b, oid), load)
  {
    SameIndex(a, b, load, oid, false);
  }

  lemma DelAlike<T>(s: State<T>, t: State<T>, load: T -> T, oid: int)
    requires StatesAlike(s, t, load) && |s.buckets| > 0
    ensures StatesAlike(Del(s, oid), Del(t, oid), load)
  {
    if oid >= 0 {
      var hv := Bucket(s, oid);
      var c, d := s.buckets[hv], t.buckets[hv];
      assert ChainsAlike(c, d, load);
      KillAlike(c.active, d.active, load, oid);
      KillAlike(c.inactive, d.inactive, load, oid);
      ChangedAlike(s, t, load, hv, Killed(c, oid), Killed(d, oid), s.store - {oid}, s.resets);
    }
  }

  lemma CheckAlike<T>(s: State<T>, t: State<T>, load: T -> T, oid: int)
    requires StatesAlike(s, t, load) && |s.buckets| > 0
    ensures Check(s, oid) == Check(t, oid)
  {
    if oid >= 0 {
      var hv := Bucket(s, oid);
      assert ChainsAlike(s.buckets[hv], t.buckets[hv], load);
      SameIndex(s.buckets[hv].active, t.buckets[hv].active, load, oid, true);
      SameIndex(s.buckets[hv].inactive, t.buckets[hv].inactive, load, oid, true);
    }
  }

  lemma ResetAlike<T>(s: State<T>, t: State<T>, load: T -> T)
    requires StatesAlike(s, t, load)
    ensures StatesAlike(Reset(s), Reset(t), load)
  {
    forall b | 0 <= b < |s.buckets| ensures ChainsAlike(Rechain(s.buckets[b]), Rechain(t.buckets[b]), load) {
      assert ChainsAlike(s.buckets[b], t.buckets[b], load);
    }
  }

  lemma {:induction false} SyncStoreAlike<T>(a: seq<Slot<T>>, b: seq<Slot<T>>, load: T -> T, store: map<int, T>)
    requires AllAlike(a, b, load)
    ensures SyncStore(a, store) == SyncStore(b, store)
    decreases |a|
  {
    if a != [] {
      assert Alike(a[0], b[0], load);
      forall i | 0 <= i < |a[1..]| ensures Alike(a[1..][i], b[1..][i], load) { assert Alike(a[i + 1], b[i + 1], load); }
      SyncStoreAlike(a[1..], b[1..], load, if a[0].dirty && a[0].op.Some? then store[a[0].oid := a[0].op.value] else store);
    }
  }

  lemma CleanAlike<T>(a: seq<Slot<T>>, b: seq<Slot<T>>, load: T -> T)
    requires AllAlike(a, b, load)
    ensures AllAlike(Clean(a), Clean(b), load)
  {
    forall i | 0 <= i < |a| ensures Alike(Clean(a)[i], Clean(b)[i], load) { assert Alike(a[i], b[i], load); }
  }

  lemma {:induction false} SyncAlike<T>(s: State<T>, t: State<T>, load: T -> T, x: nat)
    requires StatesAlike(s, t, load) && x <= |s.buckets|
    ensures StatesAlike(SyncFrom(s, x), SyncFrom(t, x), load)
    decreases |s.buckets| - x
  {
    if x < |s.buckets| {
      var c, d := s.buckets[x], t.buckets[x];
      assert ChainsAlike(c, d, load);
      SyncStoreAlike(c.active, d.active, load, s.store);
      SyncStoreAlike(c.inactive, d.inactive, load, SyncStore(c.active, s.store));
      CleanAlike(c.active, d.active, load);
      CleanAlike(c.inactive, d.inactive, load);
      var c', d' := Chains(Clean(c.active), Clean(c.inactive)), Chains(Clean(d.active), Clean(d.inactive));
      var store := SyncStore(c.inactive, SyncStore(c.active, s.store));
      ChangedAlike(s, t, load, x, c', d', store, s.resets);
      SyncAlike(s.(buckets := s.buckets[x := c'], store := store), t.(buckets := t.buckets[x := d'], store := store), load, x + 1);
    }
  }

  // ---------------------------------------------------------------- whole runs

  /** The same answer, but for an object read back. */
  predicate SameAnswer<T(==)>(r: Answer<T>, r': Answer<T>, load: T -> T) {
    if r.Object? then r'.Object? && Reread(r.found, r'.found, load) else r' == r
  }

  lemma StepAlike<T>(s: State<T>, t: State<T>, load: T -> T, op: Op<T>)
    requires StatesAlike(s, t, load) && |s.buckets| > 0
    ensures StatesAlike(Step(s, op).0, StepOver(t, op, load).0, load)
    ensures SameAnswer(Step(s, op).1, StepOver(t, op, load).1, load)
  {
    match op
    case OGet(oid) => GetAlike(s, t, load, oid);
    case OPut(obj, oid) => PutAlike(s, t, load, obj, oid);
    case ODel(oid) => DelAlike(s, t, load, oid);
    case OCheck(oid) => CheckAlike(s, t, load, oid);
    case OSync => SyncAlike(s, t, load, 0);
    case OReset => ResetAlike(s, t, load);
  }

  function RunOver<T>(s: State<T>, ops: seq<Op<T>>, load: T -> T): (State<T>, seq<Answer<T>>)
    requires |s.buckets| > 0
    decreases |ops|
  {
    if ops == [] then (s, [])
    else
      var (s', r) := StepOver(s, ops[0], load);
      if |s'.buckets| == 0 then (s, []) else
      var (s'', rs) := RunOver(s', ops[1..], load);
      (s'', [r] + rs)
  }

  ghost predicate SameAnswers<T>(rs: seq<Answer<T>>, rs': seq<Answer<T>>, load: T -> T) {
    |rs| == |rs'| && forall i :: 0 <= i < |rs| ==> SameAnswer(rs[i], rs'[i], load)
  }

  lemma {:induction false} RunAlike<T>(s: State<T>, t: State<T>, load: T -> T, ops: seq<Op<T>>)
    requires StatesAlike(s, t, load) && |s.buckets| > 0
    ensures StatesAlike(Run(s, ops).0, RunOver(t, ops, load).0, load)
    ensures SameAnswers(Run(s, ops).1, RunOver(t, ops, load).1, load)
    decreases |ops|
  {
    hide Step, StepOver;
    if ops != [] {
      StepAlike(s, t, load, ops[0]);
      var (s', r) := Step(s, ops[0]);
      var (t', r') := StepOver(t, ops[0], load);
      if |s'.buckets| > 0 {
        RunAlike(s', t', load, ops[1..]);
        var rs, rs' := Run(s', ops[1..]).1, RunOver(t', ops[1..], load).1;
        AnswersMore(r, r', rs, rs', load);
      }
    }
  }

  lemma AnswersMore<T>(r: Answer<T>, r': Answer<T>, rs: seq<Answer<T>>, rs': seq<Answer<T>>, load: T -> T)
    requires SameAnswer(r, r', load) && SameAnswers(rs, rs', load)
    ensures SameAnswers([r] + rs, [r'] + rs', load)
  {
    forall i | 0 <= i < |rs| + 1 ensures SameAnswer(([r] + rs)[i], ([r'] + rs')[i], load) {
      if i > 0 { assert SameAnswer(rs[i - 1], rs'[i - 1], load); }
    }
  }

  /** The whole stack, the cache over the chunk file, answers every run of gets, puts, deletes, checks, syncs and
      resets as one plain map of objects would, but that an object got may have been packed and unpacked once;
      and a final sync leaves exactly the map in the file. */
  lemma StackRefinesMap(width: nat, depth: nat, objects: map<int, PackSpec.Object>, ops: seq<Op<PackSpec.Object>>)
    requires width > 0 && forall oid :: oid in objects ==> oid >= 0
    requires PutsLive(Initial(width, depth, objects), ops)
    ensures var (t, rs') := RunOver(Initial(width, depth, objects), ops, PackProof.NormObject);
            var (m, rs) := MapRun(objects, ops);
            SameAnswers(rs, rs', PackProof.NormObject) && |t.buckets| > 0 && Sync(t).store == m
  {
    var s := Initial(width, depth, objects);
    InitialRepresents(width, depth, objects);
    SelfAlike(s, PackProof.NormObject);
    RunAlike(s, s, PackProof.NormObject, ops);
    RunRefinesMap(s, objects, ops);
    SyncAlike(Run(s, ops).0, RunOver(s, ops, PackProof.NormObject).0, PackProof.NormObject, 0);
  }

  lemma SelfAlike<T>(s: State<T>, load: T -> T)
    ensures StatesAlike(s, s, load)
  {
    forall b | 0 <= b < |s.buckets| ensures ChainsAlike(s.buckets[b], s.buckets[b], load) { }
  }
}

/** The one thing the cache gets wrong: a put of a number whose deleted cell is still cached marks that cell
    dirty and leaves it dead (src/src/cache.c:371, 401). When it happens, when it cannot, and what becomes of the
    object. */
module CacheLost {
  import opened Wrappers
  import opened CacheSpec
  import opened CacheProof

  // ---------------------------------------------------------------- the exact condition

  /** Every number reads as the map says. */
  ghost predicate Mirrors<T>(s: State<T>, m: map<int, T>) {
    |s.buckets| > 0 && forall oid :: Lookup(s, oid) == if oid in m then Some(m[oid]) else None
  }

  ghost predicate MirrorsAfter<T>(s: State<T>, m: map<int, T>, ops: seq<Op<T>>, n: nat)
    requires |s.buckets| > 0 && n <= |ops|
  {
    Mirrors(Run(s, ops[..n]).0, MapRun(m, ops[..n]).0)
  }

  /** The cache reads as one plain map after every operation of a run exactly when no put of the run finds a
      dead cell of its number. */
  lemma RunRefinesIff<T>(s: State<T>, m: map<int, T>, ops: seq<Op<T>>)
    requires Represents(s, m)
    ensures (forall n: nat :: n <= |ops| ==> MirrorsAfter(s, m, ops, n)) <==> PutsLive(s, ops)
  {
    if PutsLive(s, ops) {
      forall n: nat | n <= |ops| ensures MirrorsAfter(s, m, ops, n) {
        LivePrefix(s, ops, n);
        RunRefinesMap(s, m, ops[..n]);
      }
    } else {
      var n := FirstLoss(s, m, ops);
      assert !MirrorsAfter(s, m, ops, n);
    }
  }

  lemma {:induction false} LivePrefix<T>(s: State<T>, ops: seq<Op<T>>, n: nat)
    requires |s.buckets| > 0 && n <= |ops| && PutsLive(s, ops)
    ensures PutsLive(s, ops[..n])
    decreases n
  {
    if n > 0 {
      var s' := Step(s, ops[0]).0;
      assert ops[..n][1..] == ops[1..][..n - 1];
      if |s'.buckets| > 0 { LivePrefix(s', ops[1..], n - 1); }
    }
  }

  lemma RunOne<T>(s: State<T>, m: map<int, T>, ops: seq<Op<T>>, k: nat)
    requires |s.buckets| > 0 && k < |ops| && |Step(s, ops[0]).0.buckets| > 0
    ensures Run(s, ops[..k + 1]).0 == Run(Step(s, ops[0]).0, ops[1..][..k]).0
    ensures MapRun(m, ops[..k + 1]).0 == MapRun(MapStep(m, ops[0]).0, ops[1..][..k]).0
  {
    assert ops[..k + 1][0] == ops[0] && ops[..k + 1][1..] == ops[1..][..k];
  }

  lemma PutWidth<T>(s: State<T>, obj: T, oid: int)
    requires |s.buckets| > 0
    ensures |Put(s, obj, oid).buckets| == |s.buckets|
  {
  }

  /** The first put that is lost. */
  lemma {:induction false} FirstLoss<T>(s: State<T>, m: map<int, T>, ops: seq<Op<T>>) returns (n: nat)
    requires Represents(s, m) && !PutsLive(s, ops)
    ensures n <= |ops| && !MirrorsAfter(s, m, ops, n)
    decreases |ops|
  {
    hide ChainsInv, Get, Del, Check, Sync, Reset, Put, Lookup;
    var op, rest := ops[0], ops[1..];
    if op.OPut? && op.oid >= 0 && DeadCached(s, op.oid) {
      n := 1;
      PutWidth(s, op.obj, op.oid);
      PutTakesEffectIff(s, op.obj, op.oid);
      RunOne(s, m, ops, 0);
      assert rest[..0] == [];
    } else {
      StepRefines(s, m, op);
      var k := FirstLoss(Step(s, op).0, MapStep(m, op).0, rest);
      n := k + 1;
      RunOne(s, m, ops, k);
    }
  }

  // ---------------------------------------------------------------- runs that cannot lose a put

  /** No number is put again after it has been deleted. */
  ghost predicate NoReuse<T>(ops: seq<Op<T>>) {
    forall i, j :: 0 <= i < j < |ops| && ops[i].ODel? && ops[j].OPut? ==> ops[i].oid != ops[j].oid
  }

  /** Every dead cell has one of these numbers. */
  ghost predicate DeadIn<T>(s: State<T>, gone: set<int>) {
    forall b :: 0 <= b < |s.buckets| ==> ChainDeadIn(s.buckets[b], gone)
  }

  ghost predicate ChainDeadIn<T>(c: Chains<T>, gone: set<int>) { SlotsDeadIn(c.active, gone) && SlotsDeadIn(c.inactive, gone) }

  ghost predicate SlotsDeadIn<T>(s: seq<Slot<T>>, gone: set<int>) {
    forall i :: 0 <= i < |s| && s[i].dead ==> s[i].oid in gone
  }

  lemma SyncDeadIn<T>(s: State<T>, x: nat, gone: set<int>)
    requires x <= |s.buckets| && DeadIn(s, gone)
    ensures DeadIn(SyncFrom(s, x), gone) && |SyncFrom(s, x).buckets| == |s.buckets|
    decreases |s.buckets| - x
  {
    if x < |s.buckets| {
      var c := s.buckets[x];
      assert ChainDeadIn(c, gone);
      SyncDeadIn(s.(buckets := s.buckets[x := Chains(Clean(c.active), Clean(c.inactive))],
                    store := SyncStore(c.inactive, SyncStore(c.active, s.store))), x + 1, gone);
    }
  }

  lemma OneBucketDeadIn<T>(s: State<T>, b: nat, c: Chains<T>, s': State<T>, gone: set<int>)
    requires DeadIn(s, gone) && b < |s.buckets| && s'.buckets == s.buckets[b := c] && ChainDeadIn(c, gone)
    ensures DeadIn(s', gone)
  {
  }

  lemma EnteredDeadIn<T>(c: Chains<T>, cell: Slot<T>, gone: set<int>)
    requires ChainDeadIn(c, gone) && !cell.dead
    ensures ChainDeadIn(Entered(c, cell), gone)
  {
  }

  /** Only a delete makes cells dead. */
  lemma StepDeadIn<T>(s: State<T>, op: Op<T>, gone: set<int>)
    requires |s.buckets| > 0 && DeadIn(s, gone)
    ensures var s' := Step(s, op).0;
            |s'.buckets| == |s.buckets| && DeadIn(s', if op.ODel? then gone + {op.oid} else gone)
  {
    match op
    case OGet(oid) => GetDeadIn(s, oid, gone);
    case OPut(obj, oid) => PutDeadIn(s, obj, oid, gone);
    case ODel(oid) => if oid >= 0 { DelDeadIn(s, oid, gone); }
    case OCheck(oid) =>
    case OSync => SyncDeadIn(s, 0, gone);
    case OReset => ResetDeadIn(s, gone);
  }

  lemma GetDeadIn<T>(s: State<T>, oid: int, gone: set<int>)
    requires |s.buckets| > 0 && DeadIn(s, gone)
    ensures |Get(s, oid).0.buckets| == |s.buckets| && DeadIn(Get(s, oid).0, gone)
  {
    if oid >= 0 {
      var hv := Bucket(s, oid);
      var c := s.buckets[hv];
      assert ChainDeadIn(c, gone);
      var a, i := Index(c.active, oid, true), Index(c.inactive, oid, true);
      if a < |c.active| {
      } else if i < |c.inactive| {
        assert ChainDeadIn(Promoted(c, i, s.resets), gone);
        OneBucketDeadIn(s, hv, Promoted(c, i, s.resets), Get(s, oid).0, gone);
      } else if oid in s.store {
        var cell := Slot(oid, Some(s.store[oid]), false, false, s.resets);
        EnteredDeadIn(c, cell, gone);
        OneBucketDeadIn(s, hv, Entered(c, cell), Get(s, oid).0, gone);
      }
    }
  }

  lemma PutDeadIn<T>(s: State<T>, obj: T, oid: int, gone: set<int>)
    requires |s.buckets| > 0 && DeadIn(s, gone)
    ensures |Put(s, obj, oid).buckets| == |s.buckets| && DeadIn(Put(s, obj, oid), gone)
  {
    if oid >= 0 {
      var hv := Bucket(s, oid);
      var c := s.buckets[hv];
      assert ChainDeadIn(c, gone);
      var a, i := Index(c.active, oid, false), Index(c.inactive, oid, false);
      if a < |c.active| {
        OneBucketDeadIn(s, hv, Stored(c, true, a, obj), Put(s, obj, oid), gone);
      } else if i < |c.inactive| {
        OneBucketDeadIn(s, hv, Stored(c, false, i, obj), Put(s, obj, oid), gone);
      } else {
        var cell := Slot(oid, Some(obj), true, false, s.resets);
        EnteredDeadIn(c, cell, gone);
        OneBucketDeadIn(s, hv, Entered(c, cell), Put(s, obj, oid), gone);
      }
    }
  }

  lemma DelDeadIn<T>(s: State<T>, oid: int, gone: set<int>)
    requires |s.buckets| > 0 && DeadIn(s, gone) && oid >= 0
    ensures |Del(s, oid).buckets| == |s.buckets| && DeadIn(Del(s, oid), gone + {oid})
  {
    var hv := Bucket(s, oid);
    assert forall b :: 0 <= b < |s.buckets| ==> ChainDeadIn(s.buckets[b], gone);
    assert ChainDeadIn(Killed(s.buckets[hv], oid), gone + {oid});
    forall b | 0 <= b < |s.buckets| ensures ChainDeadIn(Del(s, oid).buckets[b], gone + {oid}) {
      assert ChainDeadIn(s.buckets[b], gone);
    }
  }

  lemma ResetDeadIn<T>(s: State<T>, gone: set<int>)
    requires DeadIn(s, gone)
    ensures |Reset(s).buckets| == |s.buckets| && DeadIn(Reset(s), gone)
  {
    forall b | 0 <= b < |s.buckets| ensures ChainDeadIn(Reset(s).buckets[b], gone) {
      assert ChainDeadIn(s.buckets[b], gone);
    }
  }

  lemma {:induction false} NoReuseLive<T>(s: State<T>, gone: set<int>, ops: seq<Op<T>>)
    requires |s.buckets| > 0 && DeadIn(s, gone) && NoReuse(ops)
    requires forall j :: 0 <= j < |ops| && ops[j].OPut? ==> ops[j].oid !in gone
    ensures PutsLive(s, ops)
    decreases |ops|
  {
    if ops != [] {
      var op, rest := ops[0], ops[1..];
      if op.OPut? && op.oid >= 0 { NotDead(s, op.oid, gone); }
      StepDeadIn(s, op, gone);
      forall i, j | 0 <= i < j < |rest| && rest[i].ODel? && rest[j].OPut? ensures rest[i].oid != rest[j].oid {
        assert ops[i + 1] == rest[i] && ops[j + 1] == rest[j];
      }
      forall j | 0 <= j < |rest| && rest[j].OPut? ensures rest[j].oid !in (if op.ODel? then gone + {op.oid} else gone) {
        assert ops[j + 1] == rest[j];
      }
      NoReuseLive(Step(s, op).0, if op.ODel? then gone + {op.oid} else gone, rest);
    }
  }

  lemma NotDead<T>(s: State<T>, oid: int, gone: set<int>)
    requires Good(s, oid) && DeadIn(s, gone) && oid !in gone
    ensures !DeadCached(s, oid)
  {
    assert ChainDeadIn(s.buckets[Bucket(s, oid)], gone);
  }

  /** From its start, the cache answers as one plain map would to every run that never puts a number again after
      deleting it. */
  lemma FreshRunRefines<T>(width: nat, depth: nat, store: map<int, T>, ops: seq<Op<T>>)
    requires width > 0 && (forall oid :: oid in store ==> oid >= 0) && NoReuse(ops)
    ensures var (s, rs) := Run(Initial(width, depth, store), ops);
            var (m, rs') := MapRun(store, ops);
            rs == rs' && Mirrors(s, m) && |s.buckets| > 0 && Sync(s).store == m
  {
    var s := Initial(width, depth, store);
    InitialRepresents(width, depth, store);
    forall b | 0 <= b < |s.buckets| ensures ChainDeadIn(s.buckets[b], {}) { }
    NoReuseLive(s, {}, ops);
    RunRefinesMap(s, store, ops);
  }

  // ---------------------------------------------------------------- what becomes of the object

  /** Every dirty cell holds an object and is in the bucket of its number. */
  ghost predicate Sound<T>(s: State<T>) {
    |s.buckets| > 0 && forall b :: 0 <= b < |s.buckets| ==> SoundChain(s.buckets[b].All(), b, |s.buckets|)
  }

  ghost predicate SoundChain<T>(all: seq<Slot<T>>, b: nat, w: nat)
    requires w > 0
  {
    Unique(all) && forall i :: 0 <= i < |all| && all[i].dirty ==> all[i].oid >= 0 && all[i].op.Some? && all[i].oid % w == b
  }

  /** obj is on its way into the store under oid, whose cells are all dead. */
  ghost predicate OnItsWay<T>(s: State<T>, oid: int, obj: T, x: nat)
    requires Good(s, oid)
  {
    var hv := Bucket(s, oid);
    var all := s.buckets[hv].All();
    && (forall j :: 0 <= j < |all| && all[j].oid == oid ==> all[j].dead)
    && if x <= hv then exists k :: 0 <= k < |all| && all[k].oid == oid && all[k].dirty && all[k].op == Some(obj)
       else oid in s.store && s.store[oid] == obj
  }

  lemma SyncedBucket<T>(s: State<T>, x: nat, oid: int, obj: T) returns (s': State<T>)
    requires Sound(s) && oid >= 0 && OnItsWay(s, oid, obj, x) && x < |s.buckets|
    ensures s' == s.(buckets := s.buckets[x := Chains(Clean(s.buckets[x].active), Clean(s.buckets[x].inactive))],
                     store := SyncStore(s.buckets[x].inactive, SyncStore(s.buckets[x].active, s.store)))
    ensures Sound(s') && OnItsWay(s', oid, obj, x + 1)
  {
    var c, hv := s.buckets[x], Bucket(s, oid);
    var all := c.All();
    s' := s.(buckets := s.buckets[x := Chains(Clean(c.active), Clean(c.inactive))],
             store := SyncStore(c.inactive, SyncStore(c.active, s.store)));
    assert SoundChain(all, x, |s.buckets|);
    assert s'.buckets[x].All() == Clean(all);
    SyncStoreConcat(c.active, c.inactive, s.store);
    SyncStoreHolds(all, s.store, oid);
    hide SyncStore;
    CleanSound(s, x, s');
    if x == hv {
      var k0 :| 0 <= k0 < |all| && all[k0].oid == oid && all[k0].dirty && all[k0].op == Some(obj);
      FirstIs(all, oid, false, k0);
    }
  }

  lemma CleanSound<T>(s: State<T>, x: nat, s': State<T>)
    requires Sound(s) && x < |s.buckets| == |s'.buckets| && s'.buckets[x].All() == Clean(s.buckets[x].All())
    requires forall b :: 0 <= b < |s.buckets| && b != x ==> s'.buckets[b] == s.buckets[b]
    ensures Sound(s')
  {
    forall b | 0 <= b < |s.buckets| ensures SoundChain(s'.buckets[b].All(), b, |s.buckets|) {
      assert SoundChain(s.buckets[b].All(), b, |s.buckets|);
    }
  }

  lemma {:induction false} SyncWrites<T>(s: State<T>, x: nat, oid: int, obj: T)
    requires Sound(s) && oid >= 0 && x <= |s.buckets| && OnItsWay(s, oid, obj, x)
    ensures var s' := SyncFrom(s, x); |s'.buckets| == |s.buckets| && OnItsWay(s', oid, obj, |s.buckets|)
    decreases |s.buckets| - x
  {
    if x < |s.buckets| {
      var s' := SyncedBucket(s, x, oid, obj);
      SyncWrites(s', x + 1, oid, obj);
    }
  }

  lemma PutSound<T>(s: State<T>, hv: nat, k: nat, obj: T, s': State<T>)
    requires Inv(s) && hv < |s.buckets| == |s'.buckets| && k < |s.buckets[hv].All()| && s.buckets[hv].All()[k].oid >= 0
    requires s'.buckets[hv].All() == Overwrite(s.buckets[hv].All(), k, obj)
    requires forall b :: 0 <= b < |s.buckets| && b != hv ==> s'.buckets[b] == s.buckets[b]
    ensures Sound(s')
  {
    var w := |s.buckets|;
    forall b | 0 <= b < w ensures SoundChain(s'.buckets[b].All(), b, w) {
      var cells := s.buckets[b].All();
      assert ChainsInv(cells, b, w, s.store);
      forall i | 0 <= i < |cells| ensures SlotInv(cells[i], b, w, s.store) { }
    }
  }

  /** The cell a put finds dead afterwards holds the object, dirty and still dead, and no other cell has its
      number. */
  lemma PutOnDead<T>(s: State<T>, obj: T, oid: int)
    requires Inv(s) && oid >= 0 && DeadCached(s, oid)
    ensures var s' := Put(s, obj, oid);
            |s'.buckets| == |s.buckets| && Sound(s') && OnItsWay(s', oid, obj, 0) && oid !in s'.store
  {
    var hv, w, s' := Bucket(s, oid), |s.buckets|, Put(s, obj, oid);
    var all := s.buckets[hv].All();
    var k := Index(all, oid, false);
    DeadIsFirst(s, oid);
    Searched(s.buckets[hv], oid, false);
    OverwriteAll(s.buckets[hv], obj, oid);
    assert SlotInv(all[k], hv, w, s.store);
    var all' := s'.buckets[hv].All();
    assert all' == Overwrite(all, k, obj);
    PutSound(s, hv, k, obj, s');
    assert all'[k].oid == oid && all'[k].dirty && all'[k].op == Some(obj);
  }

  /** A put that finds a dead cell is not seen - until the next cache_sync, after which the object is back. */
  lemma LostUntilSync<T>(s: State<T>, obj: T, oid: int)
    requires Inv(s) && oid >= 0 && DeadCached(s, oid)
    ensures var s' := Put(s, obj, oid);
            && |s'.buckets| > 0 && Lookup(s', oid) == None && !Check(s', oid)
            && |Sync(s').buckets| > 0 && Lookup(Sync(s'), oid) == Some(obj)
  {
    PutOnDead(s, obj, oid);
    var s' := Put(s, obj, oid);
    var hv := Bucket(s, oid);
    ValueMiss(s'.buckets[hv].All(), s'.store, oid);
    Searched(s'.buckets[hv], oid, true);
    FirstIs(s'.buckets[hv].All(), oid, true, |s'.buckets[hv].All()|);
    SyncWrites(s', 0, oid, obj);
    ValueMiss(Sync(s').buckets[hv].All(), Sync(s').store, oid);
  }

  /** Or until its cell is taken for another object, which writes it out: then it is back as well. */
  lemma LostUntilEvicted<T>(s: State<T>, obj: T, oid: int, cell: Slot<T>)
    requires Inv(s) && oid >= 0 && DeadCached(s, oid) && cell.oid != oid
    ensures var s', hv := Put(s, obj, oid), Bucket(s, oid);
            |s'.buckets| > hv && (var c := s'.buckets[hv].inactive;
            c != [] && c[|c| - 1].oid == oid ==> Lookup(LinkNew(s', hv, cell), oid) == Some(obj))
  {
    PutOnDead(s, obj, oid);
    var s', hv := Put(s, obj, oid), Bucket(s, oid);
    var c := s'.buckets[hv];
    if c.inactive != [] && c.inactive[|c.inactive| - 1].oid == oid {
      assert SoundChain(c.All(), hv, |s'.buckets|);
      LastWritten(c, s'.store, oid, obj, cell);
      assert LinkNew(s', hv, cell).buckets[hv] == Entered(c, cell);
    }
  }

  lemma LastWritten<T>(c: Chains<T>, store: map<int, T>, oid: int, obj: T, cell: Slot<T>)
    requires oid >= 0 && cell.oid != oid && Unique(c.All())
    requires c.inactive != [] && c.inactive[|c.inactive| - 1].oid == oid
    requires exists k :: 0 <= k < |c.All()| && c.All()[k].oid == oid && c.All()[k].dirty && c.All()[k].op == Some(obj)
    ensures Value(Entered(c, cell).All(), WriteBack(store, PushedOut(c)), oid) == Some(obj)
  {
    var all := c.All();
    var n := |all| - 1;
    var k :| 0 <= k < |all| && all[k].oid == oid && all[k].dirty && all[k].op == Some(obj);
    assert all[n] == c.inactive[|c.inactive| - 1];
    FirstIs(all, oid, false, k);
    FirstIs(all, oid, false, n);
    assert Entered(c, cell).All() == [cell] + all[..n];
    ValueMiss([cell] + all[..n], WriteBack(store, PushedOut(c)), oid);
  }
}

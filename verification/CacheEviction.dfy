/** Which cells the cache throws out: never one linked since the last reset, and always one from
    the oldest reset epoch of its bucket. */
module CacheEviction {
  import opened Wrappers
  import opened CacheSpec
  import opened CacheProof

  // ---------------------------------------------------------------- active cells stay

  /** The number and link time of every cell of a chain. */
  function Keys<T>(a: seq<Slot<T>>): (r: seq<(int, int)>)
    ensures |r| == |a|
  {
    seq(|a|, j requires 0 <= j < |a| => (a[j].oid, a[j].used))
  }

  /** The old active chain, cell for cell, is the end of the new one. */
  ghost predicate Extends<T>(a': seq<Slot<T>>, a: seq<Slot<T>>) {
    |a| <= |a'| && Keys(a')[|a'| - |a|..] == Keys(a)
  }

  lemma ExtendsCons<T>(cell: Slot<T>, a: seq<Slot<T>>)
    ensures Extends([cell] + a, a)
  {
    assert Keys([cell] + a)[1..] == Keys(a);
  }

  lemma ExtendsSame<T>(a': seq<Slot<T>>, a: seq<Slot<T>>)
    requires Keys(a') == Keys(a)
    ensures Extends(a', a)
  {}

  ghost predicate ActiveKept<T>(s: State<T>, s': State<T>) {
    |s'.buckets| == |s.buckets| &&
    forall b :: 0 <= b < |s.buckets| ==> Extends(s'.buckets[b].active, s.buckets[b].active)
  }

  lemma ExtendsTrans<T>(a2: seq<Slot<T>>, a1: seq<Slot<T>>, a0: seq<Slot<T>>)
    requires Extends(a2, a1) && Extends(a1, a0)
    ensures Extends(a2, a0)
  {
    assert Keys(a2)[|a2| - |a0|..] == Keys(a2)[|a2| - |a1|..][|a1| - |a0|..];
  }

  lemma ActiveKeptTrans<T>(s0: State<T>, s1: State<T>, s2: State<T>)
    requires ActiveKept(s0, s1) && ActiveKept(s1, s2)
    ensures ActiveKept(s0, s2)
  {
    forall b | 0 <= b < |s0.buckets| ensures Extends(s2.buckets[b].active, s0.buckets[b].active) {
      ExtendsTrans(s2.buckets[b].active, s1.buckets[b].active, s0.buckets[b].active);
    }
  }

  function SyncOne<T>(s: State<T>, x: nat): State<T>
    requires x < |s.buckets|
  {
    var c := s.buckets[x];
    s.(buckets := s.buckets[x := Chains(Clean(c.active), Clean(c.inactive))],
       store := SyncStore(c.inactive, SyncStore(c.active, s.store)))
  }

  lemma {:induction false} SyncKeepsActive<T>(s: State<T>, x: nat)
    requires x <= |s.buckets|
    ensures ActiveKept(s, SyncFrom(s, x)) && SyncFrom(s, x).resets == s.resets
    decreases |s.buckets| - x
  {
    if x == |s.buckets| {
      ActiveUnchanged(s);
    } else {
      ExtendsSame(SyncOne(s, x).buckets[x].active, s.buckets[x].active);
      OneBucket(s, SyncOne(s, x), x);
      SyncKeepsActive(SyncOne(s, x), x + 1);
      ActiveKeptTrans(s, SyncOne(s, x), SyncFrom(s, x));
    }
  }

  /** One bucket changed. */
  lemma OneBucket<T>(s: State<T>, s': State<T>, b: nat)
    requires b < |s.buckets| == |s'.buckets| && s'.buckets == s.buckets[b := s'.buckets[b]]
    requires Extends(s'.buckets[b].active, s.buckets[b].active)
    ensures ActiveKept(s, s')
  {
    forall x | 0 <= x < |s.buckets| && x != b ensures Extends(s'.buckets[x].active, s.buckets[x].active) {
      assert s'.buckets[x] == s.buckets[x];
      ExtendsSame(s.buckets[x].active, s.buckets[x].active);
    }
  }

  lemma ActiveUnchanged<T>(s: State<T>)
    ensures ActiveKept(s, s)
  {
    forall x | 0 <= x < |s.buckets| ensures Extends(s.buckets[x].active, s.buckets[x].active) {
      ExtendsSame(s.buckets[x].active, s.buckets[x].active);
    }
  }

  lemma GetKeepsActive<T>(s: State<T>, oid: int)
    requires Good(s, oid)
    ensures ActiveKept(s, Get(s, oid).0)
  {
    var hv, s' := Bucket(s, oid), Get(s, oid).0;
    var a, a' := s.buckets[hv].active, s'.buckets[hv].active;
    if a' == a { ExtendsSame(a', a); } else { assert a' == [a'[0]] + a; ExtendsCons(a'[0], a); }
    OneBucket(s, s', hv);
  }

  lemma PutKeepsActive<T>(s: State<T>, obj: T, oid: int)
    requires Good(s, oid)
    ensures ActiveKept(s, Put(s, obj, oid))
  {
    var hv, s' := Bucket(s, oid), Put(s, obj, oid);
    var a, a' := s.buckets[hv].active, s'.buckets[hv].active;
    if |a'| == |a| { ExtendsSame(a', a); } else { assert a' == [a'[0]] + a; ExtendsCons(a'[0], a); }
    OneBucket(s, s', hv);
  }

  lemma DelKeepsActive<T>(s: State<T>, oid: int)
    requires Good(s, oid)
    ensures ActiveKept(s, Del(s, oid))
  {
    var hv, s' := Bucket(s, oid), Del(s, oid);
    ExtendsSame(s'.buckets[hv].active, s.buckets[hv].active);
    OneBucket(s, s', hv);
  }

  lemma StepKeepsActive<T>(s: State<T>, op: Op<T>)
    requires |s.buckets| > 0 && !op.OReset?
    ensures ActiveKept(s, Step(s, op).0) && Step(s, op).0.resets == s.resets
  {
    match op
    case OGet(oid) => if oid >= 0 { GetKeepsActive(s, oid); } else { ActiveUnchanged(s); }
    case OPut(obj, oid) => if oid >= 0 { PutKeepsActive(s, obj, oid); } else { ActiveUnchanged(s); }
    case ODel(oid) => if oid >= 0 { DelKeepsActive(s, oid); } else { ActiveUnchanged(s); }
    case OCheck(_) => ActiveUnchanged(s);
    case OSync => SyncKeepsActive(s, 0);
  }

  lemma {:induction false} RunKeepsActive<T>(s: State<T>, ops: seq<Op<T>>)
    requires |s.buckets| > 0 && forall i :: 0 <= i < |ops| ==> !ops[i].OReset?
    ensures ActiveKept(s, Run(s, ops).0)
    decreases |ops|
  {
    if ops == [] {
      ActiveUnchanged(s);
    } else {
      StepKeepsActive(s, ops[0]);
      RunKeepsActive(Step(s, ops[0]).0, ops[1..]);
      ActiveKeptTrans(s, Step(s, ops[0]).0, Run(s, ops).0);
    }
  }

  ghost predicate OnActive<T>(s: State<T>, oid: int)
    requires Good(s, oid)
  {
    exists j :: 0 <= j < |s.buckets[Bucket(s, oid)].active| && s.buckets[Bucket(s, oid)].active[j].oid == oid
  }

  /** An object that cache_get returned stays on its active chain until the next cache_reset,
      so no eviction, which only takes inactive tails, can free it. */
  lemma ReturnedStaysUntilReset<T>(s: State<T>, oid: int, ops: seq<Op<T>>)
    requires |s.buckets| > 0 && Get(s, oid).1.Some?
    requires forall i :: 0 <= i < |ops| ==> !ops[i].OReset?
    ensures oid >= 0 && Good(Run(Get(s, oid).0, ops).0, oid) && OnActive(Run(Get(s, oid).0, ops).0, oid)
  {
    var at := ReturnedIsActive(s, oid);
    RunKeepsActive(Get(s, oid).0, ops);
    KeptIsActive(Get(s, oid).0, Run(Get(s, oid).0, ops).0, oid, at);
  }

  lemma KeptIsActive<T>(s1: State<T>, s2: State<T>, oid: int, at: nat)
    requires Good(s1, oid) && ActiveKept(s1, s2)
    requires var a := s1.buckets[Bucket(s1, oid)].active; at < |a| && a[at].oid == oid
    ensures Good(s2, oid) && OnActive(s2, oid)
  {
    var hv := Bucket(s1, oid);
    var a1, a2 := s1.buckets[hv].active, s2.buckets[hv].active;
    assert Extends(a2, a1);
    assert Keys(a2)[|a2| - |a1|..][at].0 == oid;
    var j := |a2| - |a1| + at;
    assert Keys(a2)[j].0 == oid;
    assert Bucket(s2, oid) == hv && a2[j].oid == oid;
  }

  lemma ReturnedIsActive<T>(s: State<T>, oid: int) returns (at: nat)
    requires |s.buckets| > 0 && Get(s, oid).1.Some?
    ensures Good(s, oid) && |Get(s, oid).0.buckets| == |s.buckets|
    ensures var a := Get(s, oid).0.buckets[Bucket(s, oid)].active;
            at < |a| && a[at].oid == oid
  {
    var a := s.buckets[Bucket(s, oid)].active;
    at := if Index(a, oid, true) < |a| then Index(a, oid, true) else 0;
  }

  // ---------------------------------------------------------------- epochs

  ghost predicate EpochChains<T>(c: Chains<T>, now: int) {
    && (forall j :: 0 <= j < |c.active| ==> c.active[j].used == now)
    && (forall j :: 0 <= j < |c.inactive| ==> c.inactive[j].used <= now)
    && (forall i, j :: 0 <= i < j < |c.inactive| ==> c.inactive[j].used <= c.inactive[i].used)
  }

  ghost predicate EpochInv<T>(s: State<T>) {
    |s.buckets| > 0 && forall b :: 0 <= b < |s.buckets| ==> EpochChains(s.buckets[b], s.resets)
  }

  lemma {:induction false} SyncKeepsEpochs<T>(s: State<T>, x: nat)
    requires EpochInv(s) && x <= |s.buckets|
    ensures EpochInv(SyncFrom(s, x)) && SyncFrom(s, x).resets == s.resets
    decreases |s.buckets| - x
  {
    if x < |s.buckets| {
      assert EpochChains(s.buckets[x], s.resets);
      SyncKeepsEpochs(SyncOne(s, x), x + 1);
    }
  }

  lemma EpochOneBucket<T>(s: State<T>, s': State<T>, b: nat)
    requires EpochInv(s) && b < |s.buckets| == |s'.buckets| && s'.buckets == s.buckets[b := s'.buckets[b]]
    requires EpochChains(s'.buckets[b], s.resets) && s'.resets == s.resets
    ensures EpochInv(s')
  {}

  lemma GetKeepsEpochs<T>(s: State<T>, oid: int)
    requires EpochInv(s) && oid >= 0
    ensures EpochInv(Get(s, oid).0)
  {
    assert EpochChains(s.buckets[Bucket(s, oid)], s.resets);
    EpochOneBucket(s, Get(s, oid).0, Bucket(s, oid));
  }

  lemma PutKeepsEpochs<T>(s: State<T>, obj: T, oid: int)
    requires EpochInv(s) && oid >= 0
    ensures EpochInv(Put(s, obj, oid))
  {
    assert EpochChains(s.buckets[Bucket(s, oid)], s.resets);
    EpochOneBucket(s, Put(s, obj, oid), Bucket(s, oid));
  }

  lemma DelKeepsEpochs<T>(s: State<T>, oid: int)
    requires EpochInv(s) && oid >= 0
    ensures EpochInv(Del(s, oid))
  {
    assert EpochChains(s.buckets[Bucket(s, oid)], s.resets);
    EpochOneBucket(s, Del(s, oid), Bucket(s, oid));
  }

  lemma StepKeepsEpochs<T>(s: State<T>, op: Op<T>)
    requires EpochInv(s)
    ensures EpochInv(Step(s, op).0)
  {
    match op
    case OGet(oid) => if oid >= 0 { GetKeepsEpochs(s, oid); }
    case OPut(obj, oid) => if oid >= 0 { PutKeepsEpochs(s, obj, oid); }
    case ODel(oid) => if oid >= 0 { DelKeepsEpochs(s, oid); }
    case OCheck(_) =>
    case OSync => SyncKeepsEpochs(s, 0);
    case OReset =>
      forall b | 0 <= b < |s.buckets| ensures EpochChains(Rechain(s.buckets[b]), s.resets + 1) {
        assert EpochChains(s.buckets[b], s.resets);
      }
  }

  lemma {:induction false} RunKeepsEpochs<T>(s: State<T>, ops: seq<Op<T>>)
    requires EpochInv(s)
    ensures EpochInv(Run(s, ops).0)
    decreases |ops|
  {
    if ops != [] {
      StepKeepsEpochs(s, ops[0]);
      RunKeepsEpochs(Step(s, ops[0]).0, ops[1..]);
    }
  }

  /** In every reachable state, the cell the next miss in a bucket would evict is no younger than
      any other cell of that bucket. */
  lemma EvictsFromOldestEpoch<T>(width: nat, depth: nat, store: map<int, T>, ops: seq<Op<T>>, b: nat)
    requires width > 0 && b < width
    ensures var s := Run(Initial(width, depth, store), ops).0;
            |s.buckets| == width && EpochInv(s) &&
            var c := s.buckets[b];
            c.inactive != [] ==>
              forall x :: x in c.All() ==> c.inactive[|c.inactive| - 1].used <= x.used
  {
    RunKeepsEpochs(Initial(width, depth, store), ops);
    RunKeepsWidth(Initial(width, depth, store), ops);
    var s := Run(Initial(width, depth, store), ops).0;
    assert EpochChains(s.buckets[b], s.resets);
  }

  lemma {:induction false} RunKeepsWidth<T>(s: State<T>, ops: seq<Op<T>>)
    requires |s.buckets| > 0
    ensures |Run(s, ops).0.buckets| == |s.buckets|
    decreases |ops|
  {
    if ops != [] {
      if ops[0].OSync? { SyncKeepsActive(s, 0); }
      RunKeepsWidth(Step(s, ops[0]).0, ops[1..]);
    }
  }
}

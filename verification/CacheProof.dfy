/** The cache refines one map from object number to object, whatever its width, depth and
    pattern of evictions. */
module CacheProof {
  import opened Wrappers
  import opened CacheSpec

  /** What a caller can observe about oid: the live cached copy, else the stored copy. */
  function Value<T>(all: seq<Slot<T>>, store: map<int, T>, oid: int): Option<T> {
    var k := Index(all, oid, true);
    if k < |all| then all[k].op
    else if oid in store then Some(store[oid]) else None
  }

  function Lookup<T>(s: State<T>, oid: int): Option<T>
    requires |s.buckets| > 0
  {
    if oid < 0 then None else Value(s.buckets[Bucket(s, oid)].All(), s.store, oid)
  }

  ghost predicate DeadCached<T>(s: State<T>, oid: int)
    requires Good(s, oid)
  {
    exists c :: c in s.buckets[Bucket(s, oid)].All() && c.oid == oid && c.dead
  }

  // ---------------------------------------------------------------- invariant

  ghost predicate Unique<T>(all: seq<Slot<T>>) {
    forall i, j :: 0 <= i < j < |all| && all[i].oid >= 0 ==> all[i].oid != all[j].oid
  }

  ghost predicate SlotInv<T>(c: Slot<T>, b: nat, width: nat, store: map<int, T>)
    requires width > 0
  {
    if c.oid < 0 then !c.dirty && !c.dead && c.op.None?
    else
      && c.oid % width == b
      && c.op.Some?
      && (c.dead ==> !c.dirty && c.oid !in store)
      && (!c.dead && !c.dirty ==> c.oid in store && store[c.oid] == c.op.value)
  }

  ghost predicate ChainsInv<T>(all: seq<Slot<T>>, b: nat, width: nat, store: map<int, T>)
    requires width > 0
  {
    Unique(all) && forall i :: 0 <= i < |all| ==> SlotInv(all[i], b, width, store)
  }

  ghost predicate Inv<T>(s: State<T>) {
    && |s.buckets| > 0
    && (forall b :: 0 <= b < |s.buckets| ==> ChainsInv(s.buckets[b].All(), b, |s.buckets|, s.store))
    && (forall oid :: oid in s.store ==> oid >= 0)
  }

  /** Index is the only position that fits its description. */
  lemma FirstIs<T>(s: seq<Slot<T>>, oid: int, live: bool, k: nat)
    requires k <= |s|
    requires k < |s| ==> s[k].oid == oid && (live ==> !s[k].dead)
    requires forall j :: 0 <= j < k ==> s[j].oid != oid || (live && s[j].dead)
    ensures Index(s, oid, live) == k
  {
    assert Index(s, oid, live) <= |s|;
  }

  lemma IndexConcat<T>(a: seq<Slot<T>>, b: seq<Slot<T>>, oid: int, live: bool)
    ensures Index(a + b, oid, live) ==
            if Index(a, oid, live) < |a| then Index(a, oid, live) else |a| + Index(b, oid, live)
  {
    var i, j := Index(a, oid, live), Index(b, oid, live);
    FirstIs(a + b, oid, live, if i < |a| then i else |a| + j);
  }

  lemma ValueConcat<T>(a: seq<Slot<T>>, b: seq<Slot<T>>, store: map<int, T>, oid: int)
    ensures Value(a + b, store, oid) ==
            if Index(a, oid, true) < |a| then a[Index(a, oid, true)].op else Value(b, store, oid)
  {
    hide Index;
    IndexConcat(a, b, oid, true);
  }

  /** One cell of a chain replaced by another, or dropped, or added: other numbers read as before. */
  lemma ValueAround<T>(a: seq<Slot<T>>, v: Slot<T>, b: seq<Slot<T>>, store: map<int, T>, oid: int)
    requires v.oid != oid
    ensures Value(a + [v] + b, store, oid) == Value(a + b, store, oid)
  {
    ValueConcat(a + [v], b, store, oid);
    IndexConcat(a, [v], oid, true);
    ValueConcat(a, b, store, oid);
  }

  /** The live cell of a number gives its value. */
  lemma ValueHit<T>(all: seq<Slot<T>>, k: nat, store: map<int, T>)
    requires Unique(all) && k < |all| && all[k].oid >= 0 && !all[k].dead
    ensures Value(all, store, all[k].oid) == all[k].op
  {
    FirstIs(all, all[k].oid, true, k);
  }

  lemma ValueMiss<T>(all: seq<Slot<T>>, store: map<int, T>, oid: int)
    requires forall j :: 0 <= j < |all| && all[j].oid == oid ==> all[j].dead
    ensures Value(all, store, oid) == if oid in store then Some(store[oid]) else None
  {
    FirstIs(all, oid, true, |all|);
  }

  /** Bucket b replaced, over a store that agrees on the numbers of every other bucket. */
  lemma OtherBuckets<T>(s: State<T>, b: nat, chains: Chains<T>, store: map<int, T>)
    requires Inv(s) && b < |s.buckets|
    requires ChainsInv(chains.All(), b, |s.buckets|, store)
    requires forall oid :: oid >= 0 && oid % |s.buckets| != b ==>
               (oid in store) == (oid in s.store) && (oid in store ==> store[oid] == s.store[oid])
    requires forall oid :: oid in store ==> oid >= 0
    ensures var s' := State(s.buckets[b := chains], store, s.resets);
            Inv(s') && forall oid :: oid >= 0 && oid % |s.buckets| != b ==> Lookup(s', oid) == Lookup(s, oid)
  {
    var w := |s.buckets|;
    var s' := State(s.buckets[b := chains], store, s.resets);
    forall x | 0 <= x < w && x != b
      ensures ChainsInv(s'.buckets[x].All(), x, w, store)
    {
      var all := s.buckets[x].All();
      assert ChainsInv(all, x, w, s.store);
      forall j | 0 <= j < |all| ensures SlotInv(all[j], x, w, store) { assert SlotInv(all[j], x, w, s.store); }
    }
  }

  // ---------------------------------------------------------------- get

  /** A cell moved to the head of the active chain. */
  lemma MoveToFront<T>(c: Chains<T>, i: nat, used: int, b: nat, w: nat, store: map<int, T>)
    requires w > 0 && i < |c.inactive| && ChainsInv(c.All(), b, w, store)
    requires c.inactive[i].oid >= 0 && !c.inactive[i].dead
    ensures var c' := Chains([c.inactive[i].(used := used)] + c.active, Without(c.inactive, i));
            ChainsInv(c'.All(), b, w, store) &&
            forall oid :: Value(c'.All(), store, oid) == Value(c.All(), store, oid)
  {
    var v := c.inactive[i];
    var cell := v.(used := used);
    var c' := Chains([cell] + c.active, Without(c.inactive, i));
    var all, all', p := c.All(), c'.All(), |c.active| + i;
    var pre, post := c.active + c.inactive[..i], c.inactive[i + 1..];
    assert all == pre + [v] + post && all' == [cell] + (pre + post);
    MovedInv(pre, v, post, used, b, w, store);
    forall oid ensures Value(all', store, oid) == Value(all, store, oid) {
      if oid == v.oid {
        ValueHit(all', 0, store);
        ValueHit(all, p, store);
      } else {
        ValueAround(pre, v, post, store, oid);
        ValueAround([], cell, pre + post, store, oid);
        assert [] + [cell] + (pre + post) == all' && [] + (pre + post) == pre + post;
      }
    }
  }

  lemma MovedInv<T>(pre: seq<Slot<T>>, v: Slot<T>, post: seq<Slot<T>>, used: int, b: nat, w: nat, store: map<int, T>)
    requires w > 0 && ChainsInv(pre + [v] + post, b, w, store)
    ensures ChainsInv([v.(used := used)] + (pre + post), b, w, store)
  {
    var all, all', p := pre + [v] + post, [v.(used := used)] + (pre + post), |pre|;
    forall j | 0 <= j < |all'|
      ensures var j0 := if j == 0 then p else if j <= p then j - 1 else j;
              all'[j] == if j == 0 then all[j0].(used := used) else all[j0]
    {}
    forall i, j | 0 <= i < j < |all'| && all'[i].oid >= 0 ensures all'[i].oid != all'[j].oid {
      var i0 := if i == 0 then p else if i <= p then i - 1 else i;
      var j0 := if j <= p then j - 1 else j;
      assert all[i0].oid == all'[i].oid && all[j0].oid == all'[j].oid;
      if i0 < j0 { assert all[i0].oid != all[j0].oid; } else { assert all[j0].oid != all[i0].oid; }
    }
    forall j | 0 <= j < |all'| ensures SlotInv(all'[j], b, w, store) {
      assert SlotInv(all[if j == 0 then p else if j <= p then j - 1 else j], b, w, store);
    }
  }

  /** A new cell at the head of the active chain, the inactive tail evicted if there is one:
      the evicted object is still seen through the store, and the new cell is seen at once. */
  lemma Replace<T>(c: Chains<T>, cell: Slot<T>, b: nat, w: nat, store: map<int, T>)
    returns (c': Chains<T>, store': map<int, T>)
    requires w > 0 && ChainsInv(c.All(), b, w, store)
    requires cell.oid >= 0 && cell.oid % w == b && cell.op.Some? && !cell.dead
    requires !cell.dirty ==> cell.oid in store && store[cell.oid] == cell.op.value
    requires forall j :: 0 <= j < |c.All()| ==> c.All()[j].oid != cell.oid
    requires forall oid :: oid in store ==> oid >= 0
    ensures c' == Entered(c, cell) && store' == WriteBack(store, PushedOut(c))
    ensures ChainsInv(c'.All(), b, w, store')
    ensures forall oid :: oid in store' ==> oid >= 0
    ensures forall oid :: oid >= 0 && oid % w != b ==>
              (oid in store) == (oid in store') && (oid in store ==> store[oid] == store'[oid])
    ensures forall oid :: oid >= 0 ==>
              Value(c'.All(), store', oid) == if oid == cell.oid then cell.op else Value(c.All(), store, oid)
  {
    var n, all := |c.inactive|, c.All();
    c', store' := Entered(c, cell), WriteBack(store, PushedOut(c));
    if n == 0 {
      assert c'.All() == [cell] + all;
      AddFront(all, cell, b, w, store);
    } else {
      var kept := all[..|all| - 1];
      assert c.inactive[n - 1] == all[|all| - 1] && SlotInv(all[|all| - 1], b, w, store);
      Evict(all, b, w, store);
      assert c'.All() == [cell] + kept;
      AddFront(kept, cell, b, w, store');
    }
  }

  lemma AddFront<T>(kept: seq<Slot<T>>, cell: Slot<T>, b: nat, w: nat, store: map<int, T>)
    requires w > 0 && ChainsInv(kept, b, w, store) && SlotInv(cell, b, w, store)
    requires cell.oid >= 0 && !cell.dead
    requires forall j :: 0 <= j < |kept| ==> kept[j].oid != cell.oid
    ensures ChainsInv([cell] + kept, b, w, store)
    ensures forall oid :: Value([cell] + kept, store, oid) == if oid == cell.oid then cell.op else Value(kept, store, oid)
  {
    FrontInv(kept, cell, b, w, store);
    FrontValue(kept, cell, store);
  }

  lemma FrontInv<T>(kept: seq<Slot<T>>, cell: Slot<T>, b: nat, w: nat, store: map<int, T>)
    requires w > 0 && ChainsInv(kept, b, w, store) && SlotInv(cell, b, w, store)
    requires forall j :: 0 <= j < |kept| ==> kept[j].oid != cell.oid
    ensures ChainsInv([cell] + kept, b, w, store)
  {
    hide SlotInv;
    var all := [cell] + kept;
    forall j | 0 <= j < |all| ensures SlotInv(all[j], b, w, store) {
      if j > 0 { assert SlotInv(kept[j - 1], b, w, store); }
    }
  }

  lemma FrontValue<T>(kept: seq<Slot<T>>, cell: Slot<T>, store: map<int, T>)
    requires cell.oid >= 0 && !cell.dead && Unique([cell] + kept)
    ensures forall oid :: Value([cell] + kept, store, oid) == if oid == cell.oid then cell.op else Value(kept, store, oid)
  {
    var all := [cell] + kept;
    forall oid ensures Value(all, store, oid) == if oid == cell.oid then cell.op else Value(kept, store, oid) {
      if oid == cell.oid { ValueHit(all, 0, store); } else { ValueAround([], cell, kept, store, oid); }
      assert [] + [cell] + kept == all && [] + kept == kept;
    }
  }

  /** The store after a cell is dropped: its contents written if dirty. */
  function Flush<T>(store: map<int, T>, c: Slot<T>): map<int, T> {
    if c.dirty && c.oid >= 0 && c.op.Some? then store[c.oid := c.op.value] else store
  }

  /** Dropping the last cell of a chain, written back first if dirty, changes no value. */
  lemma Evict<T>(all: seq<Slot<T>>, b: nat, w: nat, store: map<int, T>)
    requires w > 0 && |all| > 0 && ChainsInv(all, b, w, store)
    ensures var kept, store' := all[..|all| - 1], Flush(store, all[|all| - 1]);
            ChainsInv(kept, b, w, store') &&
            forall oid :: oid >= 0 ==> Value(kept, store', oid) == Value(all, store, oid)
  {
    var n := |all| - 1;
    var kept, victim, store' := all[..n], all[n], Flush(store, all[n]);
    assert SlotInv(victim, b, w, store);
    forall j | 0 <= j < n ensures SlotInv(kept[j], b, w, store') { assert SlotInv(all[j], b, w, store); }
    forall oid | oid >= 0 ensures Value(kept, store', oid) == Value(all, store, oid) {
      if oid == victim.oid {
        assert forall j :: 0 <= j < n ==> kept[j].oid == all[j].oid != oid;
        ValueMiss(kept, store', oid);
        if victim.dead { ValueMiss(all, store, oid); } else { ValueHit(all, n, store); }
      } else {
        ValueAround(kept, victim, [], store, oid);
        assert kept + [victim] + [] == all && kept + [] == kept;
      }
    }
  }

  ghost predicate SameLookups<T>(s: State<T>, t: State<T>)
    requires |s.buckets| > 0 && |t.buckets| > 0
  {
    forall x :: Lookup(t, x) == Lookup(s, x)
  }

  /** What a search of one chain after the other finds in a bucket. */
  lemma Searched<T>(c: Chains<T>, oid: int, live: bool)
    ensures var a, i := Index(c.active, oid, live), Index(c.inactive, oid, live);
            var k := Index(c.All(), oid, live);
            && k == (if a < |c.active| then a else |c.active| + i)
            && (a < |c.active| ==> c.All()[a] == c.active[a])
            && (i < |c.inactive| ==> c.All()[|c.active| + i] == c.inactive[i])
  {
    IndexConcat(c.active, c.inactive, oid, live);
  }

  lemma GetRefines<T>(s: State<T>, oid: int)
    requires Inv(s)
    ensures var (s', r) := Get(s, oid);
            Inv(s') && r == Lookup(s, oid) && SameLookups(s, s')
  {
    if oid >= 0 {
      var hv := Bucket(s, oid);
      var c, w := s.buckets[hv], |s.buckets|;
      var all := c.All();
      assert ChainsInv(all, hv, w, s.store);
      Searched(c, oid, true);
      var a, i, k := Index(c.active, oid, true), Index(c.inactive, oid, true), Index(all, oid, true);
      if a < |c.active| {
        ValueHit(all, a, s.store);
      } else if i < |c.inactive| {
        ValueHit(all, k, s.store);
        MoveToFront(c, i, s.resets, hv, w, s.store);
        OtherBuckets(s, hv, Chains([c.inactive[i].(used := s.resets)] + c.active, Without(c.inactive, i)), s.store);
      } else if oid in s.store {
        forall j | 0 <= j < |all| ensures all[j].oid != oid { assert SlotInv(all[j], hv, w, s.store); }
        var cell := Slot(oid, Some(s.store[oid]), false, false, s.resets);
        var c', store' := Replace(c, cell, hv, w, s.store);
        OtherBuckets(s, hv, c', store');
      }
    }
  }

  // ---------------------------------------------------------------- put

  lemma OverwriteValue<T>(all: seq<Slot<T>>, k: nat, obj: T, b: nat, w: nat, store: map<int, T>)
    requires w > 0 && ChainsInv(all, b, w, store) && k < |all| && all[k].oid >= 0 && !all[k].dead
    ensures var all' := Overwrite(all, k, obj);
            ChainsInv(all', b, w, store) &&
            forall oid :: Value(all', store, oid) == if oid == all[k].oid then Some(obj) else Value(all, store, oid)
  {
    var all' := Overwrite(all, k, obj);
    forall j | 0 <= j < |all'| ensures SlotInv(all'[j], b, w, store) { assert SlotInv(all[j], b, w, store); }
    forall oid
      ensures Value(all', store, oid) == if oid == all[k].oid then Some(obj) else Value(all, store, oid)
    {
      if oid == all[k].oid {
        ValueHit(all', k, store);
      } else {
        ValueAround(all[..k], all[k], all[k + 1..], store, oid);
        ValueAround(all[..k], all'[k], all[k + 1..], store, oid);
        assert all[..k] + [all[k]] + all[k + 1..] == all && all[..k] + [all'[k]] + all[k + 1..] == all';
      }
    }
  }

  /** The bucket after cache_put finds the number at position k of its chains. */
  lemma OverwriteAll<T>(c: Chains<T>, obj: T, oid: int)
    requires Index(c.All(), oid, false) < |c.All()|
    ensures var a, i := Index(c.active, oid, false), Index(c.inactive, oid, false);
            if a < |c.active| then
              c.(active := Overwrite(c.active, a, obj)).All() == Overwrite(c.All(), Index(c.All(), oid, false), obj)
            else
              i < |c.inactive| &&
              c.(inactive := Overwrite(c.inactive, i, obj)).All() == Overwrite(c.All(), Index(c.All(), oid, false), obj)
  {
    Searched(c, oid, false);
  }

  lemma DeadIsFirst<T>(s: State<T>, oid: int)
    requires Inv(s) && oid >= 0
    ensures var all := s.buckets[Bucket(s, oid)].All();
            var k := Index(all, oid, false);
            && ChainsInv(all, Bucket(s, oid), |s.buckets|, s.store)
            && (DeadCached(s, oid) <==> k < |all| && all[k].dead)
            && forall j :: 0 <= j < |all| && all[j].oid == oid ==> j == k
  {
    var all := s.buckets[Bucket(s, oid)].All();
    var k := Index(all, oid, false);
    assert ChainsInv(all, Bucket(s, oid), |s.buckets|, s.store);
    forall j | 0 <= j < |all| && all[j].oid == oid ensures j == k { FirstIs(all, oid, false, j); }
    if DeadCached(s, oid) {
      var x :| x in all && x.oid == oid && x.dead;
      var j :| 0 <= j < |all| && all[j] == x;
    }
    if k < |all| && all[k].dead { assert all[k] in all; }
  }

  lemma PutRefines<T>(s: State<T>, obj: T, oid: int)
    requires Inv(s) && oid >= 0 && !DeadCached(s, oid)
    ensures var s' := Put(s, obj, oid);
            Inv(s') && forall x :: Lookup(s', x) == if x == oid then Some(obj) else Lookup(s, x)
  {
    var hv := Bucket(s, oid);
    var c, w := s.buckets[hv], |s.buckets|;
    var all := c.All();
    DeadIsFirst(s, oid);
    Searched(c, oid, false);
    var a, i, k := Index(c.active, oid, false), Index(c.inactive, oid, false), Index(all, oid, false);
    if k < |all| {
      OverwriteValue(all, k, obj, hv, w, s.store);
      OverwriteAll(c, obj, oid);
      OtherBuckets(s, hv, if a < |c.active| then c.(active := Overwrite(c.active, a, obj))
                          else c.(inactive := Overwrite(c.inactive, i, obj)), s.store);
    } else {
      var c', store' := Replace(c, Slot(oid, Some(obj), true, false, s.resets), hv, w, s.store);
      OtherBuckets(s, hv, c', store');
    }
  }

  /** A put takes effect exactly when no dead cell of that number is still cached: a put that
      finds one leaves it dead, so the new object is not seen (src/src/cache.c:371, 401). */
  lemma PutTakesEffectIff<T>(s: State<T>, obj: T, oid: int)
    requires Inv(s) && oid >= 0
    ensures Lookup(Put(s, obj, oid), oid) == Some(obj) <==> !DeadCached(s, oid)
  {
    if !DeadCached(s, oid) {
      PutRefines(s, obj, oid);
    } else {
      var hv := Bucket(s, oid);
      var all := s.buckets[hv].All();
      var k := Index(all, oid, false);
      DeadIsFirst(s, oid);
      Searched(s.buckets[hv], oid, false);
      OverwriteAll(s.buckets[hv], obj, oid);
      assert SlotInv(all[k], hv, |s.buckets|, s.store);
      ValueMiss(Overwrite(all, k, obj), s.store, oid);
    }
  }

  // ---------------------------------------------------------------- del, check, reset, sync

  /** Deleting a number from a chain and from the store. */
  lemma KillValue<T>(all: seq<Slot<T>>, oid: int, b: nat, w: nat, store: map<int, T>)
    requires w > 0 && ChainsInv(all, b, w, store) && oid >= 0
    ensures ChainsInv(Kill(all, oid), b, w, store - {oid})
    ensures forall x :: Value(Kill(all, oid), store - {oid}, x) == if x == oid then None else Value(all, store, x)
  {
    KillInv(all, oid, b, w, store);
    forall x ensures Value(Kill(all, oid), store - {oid}, x) == if x == oid then None else Value(all, store, x) {
      KilledValue(all, oid, store, x);
    }
  }

  lemma KilledValue<T>(all: seq<Slot<T>>, oid: int, store: map<int, T>, x: int)
    requires Unique(all) && oid >= 0
    ensures Value(Kill(all, oid), store - {oid}, x) == if x == oid then None else Value(all, store, x)
  {
    var k := Index(all, oid, false);
    var all', store' := Kill(all, oid), store - {oid};
    if x == oid {
      KilledAll(all, oid);
      ValueMiss(all', store', x);
    } else if k < |all| {
      var pre, post := all[..k], all[k + 1..];
      ValueAround(pre, all[k], post, store, x);
      ValueAround(pre, all'[k], post, store, x);
      assert pre + [all[k]] + post == all && pre + [all'[k]] + post == all';
    }
  }

  lemma KilledAll<T>(all: seq<Slot<T>>, oid: int)
    requires Unique(all) && oid >= 0
    ensures forall j :: 0 <= j < |all| && Kill(all, oid)[j].oid == oid ==> Kill(all, oid)[j].dead
  {
    var all' := Kill(all, oid);
    forall j | 0 <= j < |all| && all'[j].oid == oid ensures all'[j].dead {
      FirstIs(all, oid, false, j);
    }
  }

  lemma KillInv<T>(all: seq<Slot<T>>, oid: int, b: nat, w: nat, store: map<int, T>)
    requires w > 0 && ChainsInv(all, b, w, store) && oid >= 0
    ensures ChainsInv(Kill(all, oid), b, w, store - {oid})
  {
    var all', store' := Kill(all, oid), store - {oid};
    forall j | 0 <= j < |all'| ensures SlotInv(all'[j], b, w, store') {
      assert SlotInv(all[j], b, w, store);
      if all[j].oid == oid { FirstIs(all, oid, false, j); }
    }
    assert forall j :: 0 <= j < |all| ==> all'[j].oid == all[j].oid;
  }

  /** The two chains are marked separately, but a number is on one of them at most. */
  lemma KillChains<T>(c: Chains<T>, oid: int)
    requires Unique(c.All()) && oid >= 0
    ensures Kill(c.active, oid) + Kill(c.inactive, oid) == Kill(c.All(), oid)
  {
    Searched(c, oid, false);
    var all, n := c.All(), |c.active|;
    var a, i := Index(c.active, oid, false), Index(c.inactive, oid, false);
    if a < n {
      if i < |c.inactive| { assert false; }
      assert Kill(all, oid) == all[a := all[a].(dirty := false, dead := true)];
      assert Kill(c.active, oid) + c.inactive == Kill(all, oid);
    } else if i < |c.inactive| {
      assert c.active + Kill(c.inactive, oid) == Kill(all, oid);
    }
  }

  lemma DelRefines<T>(s: State<T>, oid: int)
    requires Inv(s) && oid >= 0
    ensures var s' := Del(s, oid);
            Inv(s') && forall x :: Lookup(s', x) == if x == oid then None else Lookup(s, x)
  {
    var hv := Bucket(s, oid);
    var c := s.buckets[hv];
    assert ChainsInv(c.All(), hv, |s.buckets|, s.store);
    KillChains(c, oid);
    KillValue(c.All(), oid, hv, |s.buckets|, s.store);
    OtherBuckets(s, hv, Chains(Kill(c.active, oid), Kill(c.inactive, oid)), s.store - {oid});
  }

  lemma CheckRefines<T>(s: State<T>, oid: int)
    requires Inv(s)
    ensures Check(s, oid) <==> Lookup(s, oid).Some?
  {
    if oid >= 0 {
      var all := s.buckets[Bucket(s, oid)].All();
      assert ChainsInv(all, Bucket(s, oid), |s.buckets|, s.store);
      Searched(s.buckets[Bucket(s, oid)], oid, true);
      var k := Index(all, oid, true);
      if k < |all| { assert SlotInv(all[k], Bucket(s, oid), |s.buckets|, s.store); }
    }
  }

  lemma ResetRefines<T>(s: State<T>)
    requires Inv(s)
    ensures Inv(Reset(s)) && SameLookups(s, Reset(s))
  {
    assert forall b :: 0 <= b < |s.buckets| ==> Reset(s).buckets[b].All() == s.buckets[b].All();
  }

  /** Writing a chain out makes the store hold its dirty cells and leaves other numbers alone. */
  lemma {:induction false} SyncStoreHolds<T>(all: seq<Slot<T>>, store: map<int, T>, oid: int)
    requires Unique(all) && oid >= 0
    requires forall j :: 0 <= j < |all| && all[j].dirty ==> all[j].oid >= 0 && all[j].op.Some?
    ensures var store' := SyncStore(all, store);
            var k := Index(all, oid, false);
            if k < |all| && all[k].dirty then oid in store' && store'[oid] == all[k].op.value
            else (oid in store' <==> oid in store) && (oid in store ==> store'[oid] == store[oid])
  {
    if all != [] {
      var mid := if all[0].dirty && all[0].op.Some? then store[all[0].oid := all[0].op.value] else store;
      assert forall j :: 0 <= j < |all[1..]| ==> all[1..][j] == all[j + 1];
      SyncStoreHolds(all[1..], mid, oid);
      var k := Index(all, oid, false);
      if all[0].oid == oid {
        FirstIs(all[1..], oid, false, |all[1..]|);
        assert k == 0;
      } else {
        assert k == 1 + Index(all[1..], oid, false);
        assert k < |all| ==> all[k] == all[1..][k - 1];
      }
    }
  }

  lemma {:induction false} SyncStoreConcat<T>(a: seq<Slot<T>>, b: seq<Slot<T>>, store: map<int, T>)
    ensures SyncStore(a + b, store) == SyncStore(b, SyncStore(a, store))
  {
    if a == [] {
      assert a + b == b;
    } else {
      assert (a + b)[0] == a[0] && (a + b)[1..] == a[1..] + b;
      SyncStoreConcat(a[1..], b, if a[0].dirty && a[0].op.Some? then store[a[0].oid := a[0].op.value] else store);
    }
  }

  lemma {:induction false} SyncStoreKeys<T>(all: seq<Slot<T>>, store: map<int, T>)
    requires forall j :: 0 <= j < |all| && all[j].dirty ==> all[j].oid >= 0
    requires forall oid :: oid in store ==> oid >= 0
    ensures forall oid :: oid in SyncStore(all, store) ==> oid >= 0
  {
    if all != [] {
      assert forall j :: 0 <= j < |all[1..]| ==> all[1..][j] == all[j + 1];
      SyncStoreKeys(all[1..], if all[0].dirty && all[0].op.Some? then store[all[0].oid := all[0].op.value] else store);
    }
  }

  ghost predicate AllClean<T>(all: seq<Slot<T>>) { forall i :: 0 <= i < |all| ==> !all[i].dirty }

  /** One bucket written out. */
  lemma SyncChain<T>(all: seq<Slot<T>>, b: nat, w: nat, store: map<int, T>, oid: int)
    requires w > 0 && ChainsInv(all, b, w, store) && oid >= 0
    ensures var store' := SyncStore(all, store);
            && (oid % w != b ==> (oid in store') == (oid in store) && (oid in store ==> store[oid] == store'[oid]))
            && Value(Clean(all), store', oid) == Value(all, store, oid)
            && (forall j :: 0 <= j < |all| && all[j].oid == oid ==> SlotInv(all[j].(dirty := false), b, w, store'))
  {
    var store' := SyncStore(all, store);
    forall j | 0 <= j < |all| ensures all[j].dirty ==> all[j].oid >= 0 && all[j].op.Some? {
      assert SlotInv(all[j], b, w, store);
    }
    SyncStoreHolds(all, store, oid);
    SyncedValue(all, Index(all, oid, false), b, w, store, store', oid);
  }

  /** What is at k, the place of oid if it is there at all, is what the store holds afterwards. */
  lemma SyncedValue<T>(all: seq<Slot<T>>, k: nat, b: nat, w: nat, store: map<int, T>, store': map<int, T>, oid: int)
    requires w > 0 && ChainsInv(all, b, w, store) && oid >= 0 && k == Index(all, oid, false)
    requires if k < |all| && all[k].dirty then oid in store' && store'[oid] == all[k].op.value
             else (oid in store' <==> oid in store) && (oid in store ==> store'[oid] == store[oid])
    ensures oid % w != b ==> (oid in store') == (oid in store) && (oid in store ==> store[oid] == store'[oid])
    ensures Value(Clean(all), store', oid) == Value(all, store, oid)
    ensures forall j :: 0 <= j < |all| && all[j].oid == oid ==> SlotInv(all[j].(dirty := false), b, w, store')
  {
    if k < |all| {
      assert SlotInv(all[k], b, w, store);
      assert forall j :: 0 <= j < |all| && all[j].oid == oid ==> j == k;
      if all[k].dead {
        ValueMiss(all, store, oid);
        ValueMiss(Clean(all), store', oid);
      } else {
        ValueHit(all, k, store);
        ValueHit(Clean(all), k, store');
      }
    } else {
      ValueMiss(all, store, oid);
      ValueMiss(Clean(all), store', oid);
    }
  }

  lemma SyncBucket<T>(s: State<T>, x: nat)
    requires Inv(s) && x < |s.buckets|
    ensures var c := s.buckets[x];
            var s' := s.(buckets := s.buckets[x := Chains(Clean(c.active), Clean(c.inactive))],
                         store := SyncStore(c.inactive, SyncStore(c.active, s.store)));
            Inv(s') && SameLookups(s, s') && AllClean(s'.buckets[x].All())
  {
    var c, w := s.buckets[x], |s.buckets|;
    var c', all := Chains(Clean(c.active), Clean(c.inactive)), c.All();
    var store' := SyncStore(all, s.store);
    assert ChainsInv(all, x, w, s.store);
    SyncStoreConcat(c.active, c.inactive, s.store);
    assert c'.All() == Clean(all);
    forall j | 0 <= j < |all| ensures all[j].dirty ==> all[j].oid >= 0 { assert SlotInv(all[j], x, w, s.store); }
    SyncStoreKeys(all, s.store);
    forall j | 0 <= j < |all| ensures SlotInv(Clean(all)[j], x, w, store') {
      assert SlotInv(all[j], x, w, s.store);
      if all[j].oid >= 0 { SyncChain(all, x, w, s.store, all[j].oid); }
    }
    forall oid | oid >= 0
      ensures oid % w != x ==> (oid in store') == (oid in s.store) && (oid in store' ==> store'[oid] == s.store[oid])
      ensures Value(Clean(all), store', oid) == Value(all, s.store, oid)
    {
      SyncChain(all, x, w, s.store, oid);
    }
    OtherBuckets(s, x, c', store');
  }

  lemma {:induction false} SyncFromRefines<T>(s: State<T>, x: nat)
    requires Inv(s) && x <= |s.buckets|
    requires forall b :: 0 <= b < x ==> AllClean(s.buckets[b].All())
    ensures var s' := SyncFrom(s, x);
            && |s'.buckets| == |s.buckets| && Inv(s') && SameLookups(s, s') && s'.resets == s.resets
            && forall b :: 0 <= b < |s.buckets| ==> AllClean(s'.buckets[b].All())
    decreases |s.buckets| - x
  {
    if x < |s.buckets| {
      SyncBucket(s, x);
      var c := s.buckets[x];
      SyncFromRefines(s.(buckets := s.buckets[x := Chains(Clean(c.active), Clean(c.inactive))],
                         store := SyncStore(c.inactive, SyncStore(c.active, s.store))), x + 1);
    }
  }

  /** After cache_sync the store alone holds the whole map. */
  lemma SyncRefines<T>(s: State<T>)
    requires Inv(s)
    ensures var s' := Sync(s);
            && Inv(s') && SameLookups(s, s')
            && forall oid :: Lookup(s, oid) == if oid in s'.store then Some(s'.store[oid]) else None
  {
    SyncFromRefines(s, 0);
    var s' := Sync(s);
    forall oid ensures Lookup(s', oid) == if oid in s'.store then Some(s'.store[oid]) else None {
      if oid >= 0 {
        var hv := Bucket(s', oid);
        var all := s'.buckets[hv].All();
        assert ChainsInv(all, hv, |s'.buckets|, s'.store) && AllClean(all);
        var k := Index(all, oid, true);
        if k < |all| { assert SlotInv(all[k], hv, |s'.buckets|, s'.store); }
      }
    }
  }

  // ---------------------------------------------------------------- whole runs

  datatype Op<+T> = OGet(oid: int) | OPut(obj: T, oid: int) | ODel(oid: int) | OCheck(oid: int) | OSync | OReset

  datatype Answer<+T> = Nothing | Object(found: Option<T>) | Exists(yes: bool)

  function Step<T>(s: State<T>, op: Op<T>): (State<T>, Answer<T>)
    requires |s.buckets| > 0
  {
    match op
    case OGet(oid) => var (s', r) := Get(s, oid); (s', Object(r))
    case OPut(obj, oid) => (Put(s, obj, oid), Nothing)
    case ODel(oid) => (Del(s, oid), Nothing)
    case OCheck(oid) => (s, Exists(Check(s, oid)))
    case OSync => (Sync(s), Nothing)
    case OReset => (Reset(s), Nothing)
  }

  /** The same operation on one plain map. */
  function MapStep<T>(m: map<int, T>, op: Op<T>): (map<int, T>, Answer<T>) {
    match op
    case OGet(oid) => (m, Object(if oid in m then Some(m[oid]) else None))
    case OPut(obj, oid) => (if oid < 0 then m else m[oid := obj], Nothing)
    case ODel(oid) => (m - {oid}, Nothing)
    case OCheck(oid) => (m, Exists(oid in m))
    case OSync => (m, Nothing)
    case OReset => (m, Nothing)
  }

  ghost predicate Represents<T>(s: State<T>, m: map<int, T>) {
    Inv(s) && forall oid :: Lookup(s, oid) == if oid in m then Some(m[oid]) else None
  }

  lemma StepRefines<T>(s: State<T>, m: map<int, T>, op: Op<T>)
    requires Represents(s, m)
    requires op.OPut? && op.oid >= 0 ==> !DeadCached(s, op.oid)
    ensures var (s', r) := Step(s, op);
            var (m', r') := MapStep(m, op);
            r == r' && Represents(s', m') && (op.OSync? ==> s'.store == m')
  {
    hide Inv, Sync, Reset;
    assert forall oid :: oid in m ==> Lookup(s, oid).Some?;
    match op
    case OGet(oid) => GetRefines(s, oid);
    case OPut(obj, oid) => if oid >= 0 { PutRefines(s, obj, oid); }
    case ODel(oid) => if oid >= 0 { DelRefines(s, oid); }
    case OCheck(oid) => CheckRefines(s, oid);
    case OSync =>
      SyncRefines(s);
      SyncLeaves(s, m);
    case OReset => ResetRefines(s);
  }

  lemma SyncLeaves<T>(s: State<T>, m: map<int, T>)
    requires Represents(s, m)
    ensures Sync(s).store == m
  {
    hide Sync, Lookup;
    SyncRefines(s);
    var s' := Sync(s);
    forall oid ensures oid in s'.store <==> oid in m {
      assert Lookup(s, oid) == if oid in s'.store then Some(s'.store[oid]) else None;
    }
    forall oid | oid in m ensures s'.store[oid] == m[oid] {
      assert Lookup(s, oid) == Some(m[oid]);
    }
  }

  function Run<T>(s: State<T>, ops: seq<Op<T>>): (State<T>, seq<Answer<T>>)
    requires |s.buckets| > 0
    decreases |ops|
  {
    if ops == [] then (s, [])
    else
      var (s', r) := Step(s, ops[0]);
      if |s'.buckets| == 0 then (s, []) else
      var (s'', rs) := Run(s', ops[1..]);
      (s'', [r] + rs)
  }

  function MapRun<T>(m: map<int, T>, ops: seq<Op<T>>): (map<int, T>, seq<Answer<T>>)
    decreases |ops|
  {
    if ops == [] then (m, [])
    else
      var (m', r) := MapStep(m, ops[0]);
      var (m'', rs) := MapRun(m', ops[1..]);
      (m'', [r] + rs)
  }

  /** No put of the run finds a dead cell of its number. */
  ghost predicate PutsLive<T>(s: State<T>, ops: seq<Op<T>>)
    requires |s.buckets| > 0
    decreases |ops|
  {
    ops == [] ||
    (&& (ops[0].OPut? && ops[0].oid >= 0 ==> !DeadCached(s, ops[0].oid))
     && var s' := Step(s, ops[0]).0;
        (|s'.buckets| > 0 ==> PutsLive(s', ops[1..])))
  }

  /** Any run of gets, puts, deletes, checks, syncs and resets answers as one plain map would. */
  lemma {:induction false} RunRefinesMap<T>(s: State<T>, m: map<int, T>, ops: seq<Op<T>>)
    requires Represents(s, m) && PutsLive(s, ops)
    ensures var (s', rs) := Run(s, ops);
            var (m', rs') := MapRun(m, ops);
            rs == rs' && Represents(s', m') && Sync(s').store == m'
    decreases |ops|
  {
    if ops == [] {
      StepRefines(s, m, OSync);
    } else {
      StepRefines(s, m, ops[0]);
      RunRefinesMap(Step(s, ops[0]).0, MapStep(m, ops[0]).0, ops[1..]);
    }
  }

  /** cache_init: empty slots only, so the map is exactly what is stored. */
  function Initial<T>(width: nat, depth: nat, store: map<int, T>): State<T> {
    State(EmptyBuckets(width, depth), store, 0)
  }

  function EmptyBucket<T>(depth: nat): Chains<T> {
    Chains([], seq(depth, _ => Slot(-1, None, false, false, 0)))
  }

  function EmptyBuckets<T>(width: nat, depth: nat): seq<Chains<T>> { seq(width, _ => EmptyBucket(depth)) }

  lemma InitialRepresents<T>(width: nat, depth: nat, store: map<int, T>)
    requires width > 0 && forall oid :: oid in store ==> oid >= 0
    ensures Represents(Initial(width, depth, store), store)
  {
    var s := Initial(width, depth, store);
    forall oid | oid >= 0
      ensures Value(s.buckets[Bucket(s, oid)].All(), store, oid) == if oid in store then Some(store[oid]) else None
    {
      ValueMiss(s.buckets[Bucket(s, oid)].All(), store, oid);
    }
  }

  /** The concrete failure: destroy an object, store it again under its number, and read it. */
  lemma PutAfterDelIsLost(obj: int)
    ensures var s := Initial<int>(1, 1, map[]);
            var s1 := Put(s, obj, 7);
            var s2 := Del(s1, 7);
            && Inv(s2) && Lookup(s1, 7) == Some(obj) && DeadCached(s2, 7)
            && Get(Put(s2, obj, 7), 7).1 == None
  {
    var s := Initial<int>(1, 1, map[]);
    var e: Slot<int> := Slot(-1, None, false, false, 0);
    assert s.buckets == [Chains([], [e])] by { assert s.buckets[0].inactive == [e]; }
    InitialRepresents<int>(1, 1, map[]);
    DeadIsFirst(s, 7);
    FirstIs([e], 7, false, 1);
    PutRefines(s, obj, 7);
    var s1 := Put(s, obj, 7);
    assert [Slot(7, Some(obj), true, false, 0)] + [] == [Slot(7, Some(obj), true, false, 0)];
    assert s1.buckets == [Chains([Slot(7, Some(obj), true, false, 0)], [])];
    DelRefines(s1, 7);
    var s2 := Del(s1, 7);
    FirstIs(s1.buckets[0].active, 7, false, 0);
    assert Kill(s1.buckets[0].active, 7) == [Slot(7, Some(obj), false, true, 0)];
    assert s2.buckets == [Chains([Slot(7, Some(obj), false, true, 0)], [])];
    assert s2.buckets[0].All()[0] == Slot(7, Some(obj), false, true, 0);
    assert DeadCached(s2, 7);
    FirstIs(s2.buckets[0].active, 7, false, 0);
    assert Overwrite(s2.buckets[0].active, 0, obj) == [Slot(7, Some(obj), true, true, 0)];
    assert Put(s2, obj, 7).buckets == [Chains([Slot(7, Some(obj), true, true, 0)], [])];
  }
}

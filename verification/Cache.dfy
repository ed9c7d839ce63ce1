/** The object cache itself (src/src/cache.c): hashed buckets of linked cells over a store.

    The storage layer below is the map `store`; DB_GET, DB_PUT, DB_CHECK and DB_DEL read and write
    it, and a DB_PUT succeeds. Every operation is shown to take the cache from one abstract state
    to the next exactly as its function in CacheSpec says. */
module Cache {
  import opened Wrappers
  import opened CacheSpec
  import opened CacheProof
  import opened CacheChains

  class ObjectCache<T> {
    var cwidth: nat
    var cdepth: nat
    var initted: bool
    var sys: seq<CacheLst<T>>
    var store: map<int, T>
    var csObjects: int  // cs_objects, the total number of cells
    var csResets: int
    ghost var Nodes: set<object>  // the buckets and their cells

    ghost predicate BucketOk(b: int)
      reads this`sys, this`Nodes, Nodes
    {
      0 <= b < |sys| ==> sys[b] in Nodes && sys[b].Cells() <= Nodes && sys[b].Valid()
    }

    ghost predicate Separate(a: int, b: int)
      reads this`sys, this`Nodes, Nodes
    {
      0 <= a < |sys| && 0 <= b < |sys| && sys[a] in Nodes && sys[b] in Nodes && a != b ==>
        sys[a] != sys[b] && sys[a].Cells() !! sys[b].Cells()
    }

    /** Buckets and cells are all there, and no cell is on two chains. */
    ghost predicate Shape()
      reads this`sys, this`Nodes, Nodes
    {
      && this !in Nodes
      && (forall b {:trigger BucketOk(b)} :: BucketOk(b))
      && (forall a, b {:trigger Separate(a, b)} :: Separate(a, b))
    }

    ghost function BucketsTo(n: nat): (r: seq<Chains<T>>)
      requires Shape() && n <= |sys|
      reads this`sys, this`Nodes, Nodes
      ensures |r| == n
    {
      if n == 0 then [] else assert BucketOk(n - 1); BucketsTo(n - 1) + [sys[n - 1].View()]
    }

    lemma {:induction false} BucketsToAt(n: nat)
      requires Shape() && n <= |sys|
      ensures forall b {:trigger BucketOk(b)} :: 0 <= b < n ==> BucketOk(b) && BucketsTo(n)[b] == sys[b].View()
    {
      if n > 0 {
        BucketsToAt(n - 1);
        forall b {:trigger BucketOk(b)} | 0 <= b < n ensures BucketOk(b) && BucketsTo(n)[b] == sys[b].View() {
          assert BucketOk(b);
          assert b < n - 1 ==> BucketsTo(n)[b] == BucketsTo(n - 1)[b];
        }
      }
    }

    ghost function Buckets(): (r: seq<Chains<T>>)
      requires Shape()
      reads this`sys, this`Nodes, Nodes
      ensures |r| == |sys| && forall b {:trigger BucketOk(b)} :: 0 <= b < |sys| ==> BucketOk(b) && r[b] == sys[b].View()
    {
      BucketsToAt(|sys|);
      BucketsTo(|sys|)
    }

    ghost predicate Valid()
      reads this, Nodes
    {
      && Shape()
      && cwidth > 0
      && |sys| == (if initted then cwidth else 0)
      && csObjects == Total(Buckets())
      && (!initted ==> csResets == 0)
    }

    ghost function Abs(): State<T>
      requires Shape()
      reads this, Nodes
    {
      State(Buckets(), store, csResets)
    }

    constructor (width: nat, depth: nat, store: map<int, T>)
      requires width > 0
      ensures Valid() && fresh(Nodes) && !initted && cwidth == width && cdepth == depth
      ensures this.store == store && csResets == 0
    {
      cwidth, cdepth, initted, sys := width, depth, false, [];
      this.store, csObjects, csResets := store, 0, 0;
      Nodes := {};
    }

    /** A bucket none of whose objects was touched. */
    twostate lemma Untouched(a: nat)
      requires old(Shape()) && sys == old(sys) && a < |sys|
      requires unchanged(sys[a]) && unchanged(old(sys[a].Cells()))
      ensures sys[a].Valid() && sys[a].View() == old(sys[a].View()) && sys[a].Cells() == old(sys[a].Cells())
    {
      assert old(BucketOk(a));
      var lst := sys[a];
      assert forall c :: c in lst.act ==> c in old(lst.Cells());
      assert forall c :: c in lst.ina ==> c in old(lst.Cells());
      ViewsKept(lst.act);
      ViewsKept(lst.ina);
    }

    /** A bucket operation is over: its own cells are known, and no other bucket was touched. */
    twostate lemma OneBucketChanged(b: nat)
      requires old(Shape()) && sys == old(sys) && b < |sys|
      requires this !in Nodes && old(Nodes) <= Nodes && sys[b].Valid() && sys[b].Cells() <= Nodes
      requires fresh(sys[b].Cells() - old(sys[b].Cells()))
      requires unchanged(old(Nodes - {sys[b]} - sys[b].Cells()))
      ensures Shape() && Buckets() == old(Buckets())[b := sys[b].View()]
    {
      assert old(BucketOk(b));
      forall a | 0 <= a < |sys| && a != b
        ensures sys[a].Valid() && sys[a].View() == old(sys[a].View()) && sys[a].Cells() == old(sys[a].Cells())
        ensures sys[a] in old(Nodes) && sys[a].Cells() <= old(Nodes)
        ensures sys[a] != sys[b] && sys[a].Cells() !! old(sys[b].Cells())
      {
        assert old(BucketOk(a)) && old(Separate(a, b));
        Untouched(a);
      }
      forall x ensures BucketOk(x) {}
      forall x, y ensures Separate(x, y) { assert old(Separate(x, y)); }
      forall a | 0 <= a < |sys| ensures Buckets()[a] == old(Buckets())[b := sys[b].View()][a] {
        assert BucketOk(a) && old(BucketOk(a));
      }
    }

    /** Bucket hv takes in a new cell; what it pushed out is still to be written. */
    method InstallIn(hv: nat, oid: int, obj: T, dirty: bool) returns (written: Option<(T, int)>, grew: bool)
      requires Shape() && hv < |sys|
      modifies `Nodes, Nodes
      ensures Shape() && fresh(Nodes - old(Nodes))
      ensures written == PushedOut(old(Buckets())[hv]) && grew == (|old(Buckets())[hv].inactive| == 0)
      ensures Buckets() == old(Buckets())[hv := Entered(old(Buckets())[hv], Slot(oid, Some(obj), dirty, false, csResets))]
    {
      var lst := sys[hv];
      assert BucketOk(hv) && Buckets()[hv] == lst.View();
      written, grew := lst.Install(oid, obj, dirty, csResets);
      Nodes := Nodes + lst.Cells();
      OneBucketChanged(hv);
    }

    /** A miss filled: the new cell is linked, and whatever it pushed out is written back if dirty. */
    method ReplaceIn(hv: nat, oid: int, obj: T, dirty: bool)
      requires Valid() && hv < |sys|
      modifies this, Nodes
      ensures Valid() && fresh(Nodes - old(Nodes)) && initted == old(initted)
      ensures Abs() == LinkNew(old(Abs()), hv, Slot(oid, Some(obj), dirty, false, old(csResets)))
    {
      var written, grew := InstallIn(hv, oid, obj, dirty);
      store := WriteBack(store, written);
      if grew {
        csObjects := csObjects + 1;
      }
      TotalUpdate(old(Buckets()), hv, Buckets()[hv]);
    }

    /** An inactive cell of bucket hv becomes active. */
    method ActivateIn(hv: nat, cp: Cell<T>, ghost i: nat)
      requires Shape() && hv < |sys| && i < |sys[hv].ina| && sys[hv].ina[i] == cp && i < |Buckets()[hv].inactive|
      modifies Nodes
      ensures Shape() && Buckets() == old(Buckets())[hv := Promoted(old(Buckets())[hv], i, csResets)]
      ensures Total(Buckets()) == old(Total(Buckets()))
    {
      assert BucketOk(hv) && Buckets()[hv] == sys[hv].View();
      sys[hv].Activate(cp, i, csResets);
      OneBucketChanged(hv);
      TotalUpdate(old(Buckets()), hv, Buckets()[hv]);
    }

    /** A cell of bucket hv gets new contents. */
    method StoreIn(hv: nat, cp: Cell<T>, active: bool, ghost k: nat, obj: T)
      requires Shape() && hv < |sys|
      requires var s := if active then sys[hv].act else sys[hv].ina; k < |s| && s[k] == cp
      requires k < |if active then Buckets()[hv].active else Buckets()[hv].inactive|
      modifies Nodes
      ensures Shape() && Buckets() == old(Buckets())[hv := Stored(old(Buckets())[hv], active, k, obj)]
      ensures Total(Buckets()) == old(Total(Buckets()))
    {
      assert BucketOk(hv) && Buckets()[hv] == sys[hv].View();
      assert cp in sys[hv].Cells();
      sys[hv].Store(cp, active, k, obj);
      OneBucketChanged(hv);
      TotalUpdate(old(Buckets()), hv, Buckets()[hv]);
    }

    /** The cells of bucket hv that hold oid are marked dead. */
    method KillIn(hv: nat, oid: int)
      requires Shape() && hv < |sys|
      modifies Nodes
      ensures Shape() && Buckets() == old(Buckets())[hv := Killed(old(Buckets())[hv], oid)]
      ensures Total(Buckets()) == old(Total(Buckets()))
    {
      assert BucketOk(hv) && Buckets()[hv] == sys[hv].View();
      sys[hv].Kill(true, oid);
      sys[hv].Kill(false, oid);
      OneBucketChanged(hv);
      TotalUpdate(old(Buckets()), hv, Buckets()[hv]);
    }

    method SearchIn(hv: nat, active: bool, oid: int, live: bool) returns (cp: Cell?<T>, ghost k: nat)
      requires Shape() && hv < |sys|
      ensures var c := Buckets()[hv];
              var s := if active then c.active else c.inactive;
              k == Index(s, oid, live) && (cp == null <==> k == |s|) && (cp != null ==> cp.op == s[k].op)
      ensures var s := if active then sys[hv].act else sys[hv].ina;
              k <= |s| && (cp == null <==> k == |s|) && (k < |s| ==> cp == s[k])
    {
      assert BucketOk(hv) && Buckets()[hv] == sys[hv].View();
      cp, k := sys[hv].Search(active, oid, live);
    }

    /** Bucket hv starts a new epoch. */
    method RechainIn(hv: nat)
      requires Shape() && hv < |sys|
      modifies Nodes
      ensures Shape() && Buckets() == old(Buckets())[hv := Rechain(old(Buckets())[hv])]
      ensures Total(Buckets()) == old(Total(Buckets()))
    {
      assert BucketOk(hv) && Buckets()[hv] == sys[hv].View();
      sys[hv].Reset();
      OneBucketChanged(hv);
      TotalUpdate(old(Buckets()), hv, Buckets()[hv]);
    }

    /** Bucket hv is written out, active chain first. */
    method FlushIn(hv: nat, store: map<int, T>) returns (store': map<int, T>)
      requires Shape() && hv < |sys|
      modifies Nodes
      ensures Shape()
      ensures var c := old(Buckets())[hv];
              && Buckets() == old(Buckets())[hv := Chains(Clean(c.active), Clean(c.inactive))]
              && store' == SyncStore(c.inactive, SyncStore(c.active, store))
      ensures Total(Buckets()) == old(Total(Buckets()))
    {
      assert BucketOk(hv) && Buckets()[hv] == sys[hv].View();
      store' := sys[hv].FlushBoth(store);
      OneBucketChanged(hv);
      TotalUpdate(old(Buckets()), hv, Buckets()[hv]);
    }

    /** A new bucket at the end of the table. */
    method AddBucket(lst: CacheLst<T>)
      requires Shape() && lst.Valid() && lst !in Nodes && lst.Cells() !! Nodes
      modifies `sys, `Nodes
      ensures Shape() && Nodes == old(Nodes) + {lst} + lst.Cells() && Buckets() == old(Buckets()) + [lst.View()]
    {
      assert forall b :: 0 <= b < |sys| ==> BucketOk(b);
      ghost var n := |sys|;
      sys := sys + [lst];
      Nodes := Nodes + {lst} + lst.Cells();
      forall b ensures BucketOk(b) { assert old(BucketOk(b)); }
      forall a, b ensures Separate(a, b) { assert old(Separate(a, b)) && old(BucketOk(a)) && old(BucketOk(b)); }
      forall b | 0 <= b <= n ensures Buckets()[b] == (old(Buckets()) + [lst.View()])[b] {
        assert BucketOk(b) && old(BucketOk(b));
      }
    }

    // -------------------------------------------------------------- the operations

    /** cache_init: every bucket gets depth empty cells. */
    method Init()
      requires Valid()
      modifies this, Nodes
      ensures Valid() && fresh(Nodes - old(Nodes)) && initted
      ensures Abs() == if old(initted) then old(Abs()) else Initial(cwidth, cdepth, store)
      ensures cwidth == old(cwidth) && cdepth == old(cdepth) && store == old(store)
    {
      if initted {
        return;
      }
      Build();
      initted := true;
    }

    method Build()
      requires Shape() && |sys| == 0 && csObjects == 0
      modifies `sys, `Nodes, `csObjects
      ensures Shape() && fresh(Nodes - old(Nodes)) && Buckets() == EmptyBuckets(cwidth, cdepth)
      ensures csObjects == Total(Buckets())
    {
      var x := 0;
      while x < cwidth
        invariant x <= cwidth && Shape() && fresh(Nodes - old(Nodes)) && |sys| == x
        invariant Buckets() == EmptyBuckets(x, cdepth)
        invariant csObjects == Total(Buckets())
      {
        AddEmpty();
        csObjects := csObjects + cdepth;
        x := x + 1;
      }
    }

    method AddEmpty()
      requires Shape()
      modifies `sys, `Nodes
      ensures Shape() && fresh(Nodes - old(Nodes)) && Buckets() == old(Buckets()) + [EmptyBucket(cdepth)]
      ensures Total(Buckets()) == old(Total(Buckets())) + cdepth
    {
      var lst := NewBucket(cdepth);
      TotalAppend(Buckets(), lst.View());
      AddBucket(lst);
    }

    static method NewBucket(depth: nat) returns (lst: CacheLst<T>)
      ensures fresh(lst) && lst.Valid() && fresh(lst.Cells()) && lst.View() == EmptyBucket(depth)
    {
      hide CacheChains.Distinct;
      lst := new CacheLst();
      var y := 0;
      while y < depth
        invariant y <= depth && fresh(lst) && lst.Valid() && fresh(lst.Cells())
        invariant lst.View() == EmptyBucket(y)
      {
        var np := new Cell(-1, None, false, 0);
        assert forall i :: 0 <= i < |lst.ina| ==> lst.ina[i] in lst.Cells();
        lst.Add(np);
        assert [Slot<T>.Slot(-1, None, false, false, 0)] + EmptyBucket<T>(y).inactive == EmptyBucket<T>(y + 1).inactive;
        y := y + 1;
      }
    }

    /** cache_reset. */
    method Reset()
      requires Valid()
      modifies this, Nodes
      ensures Valid() && Nodes == old(Nodes) && initted == old(initted)
      ensures Abs() == if initted then CacheSpec.Reset(old(Abs())) else old(Abs())
    {
      if !initted {
        return;
      }
      ghost var bs := Buckets();
      var x := 0;
      while x < cwidth
        invariant x <= cwidth && Valid() && initted && Nodes == old(Nodes) && unchanged(`csResets, `store, `cwidth)
        invariant Buckets() == seq(|bs|, i requires 0 <= i < |bs| => if i < x then Rechain(bs[i]) else bs[i])
      {
        RechainIn(x);
        x := x + 1;
      }
      csResets := csResets + 1;
    }

    /** cache_sync; it fails only when the cache is not ready. */
    method Sync() returns (failed: bool)
      requires Valid()
      modifies this, Nodes
      ensures Valid() && Nodes == old(Nodes) && initted == old(initted) && failed == !initted
      ensures Abs() == if initted then CacheSpec.Sync(old(Abs())) else old(Abs())
    {
      hide SyncStore, Clean, Index;
      if !initted {
        return true;
      }
      var x := 0;
      while x < cwidth
        invariant x <= cwidth && Valid() && initted && Nodes == old(Nodes) && cwidth == old(cwidth)
        invariant SyncFrom(Abs(), x) == CacheSpec.Sync(old(Abs()))
      {
        store := FlushIn(x, store);
        x := x + 1;
      }
      failed := false;
    }

    method Get(oid: int) returns (r: Option<T>)
      requires Valid()
      modifies this, Nodes
      ensures Valid() && fresh(Nodes - old(Nodes)) && initted == old(initted)
      ensures if initted then (Abs(), r) == CacheSpec.Get(old(Abs()), oid) else r == None && Abs() == old(Abs())
    {
      r := None;
      if !initted || oid < 0 {
        return;
      }
      var hv := oid % cwidth;
      var cp, active, k := FindIn(hv, oid, true);
      if cp != null {
        r := cp.op;
        if !active {
          ActivateIn(hv, cp, k);
        }
      } else if oid in store {
        r := Some(store[oid]);
        ReplaceIn(hv, oid, store[oid], false);
      }
    }

    /** Both searches of cache_put. */
    method FindIn(hv: nat, oid: int, live: bool) returns (cp: Cell?<T>, active: bool, ghost k: nat)
      requires Shape() && hv < |sys|
      ensures var c := Buckets()[hv];
              var a, i := Index(c.active, oid, live), Index(c.inactive, oid, live);
              if a < |c.active| then cp != null && active && k == a && cp.op == c.active[a].op
              else if i < |c.inactive| then cp != null && !active && k == i && cp.op == c.inactive[i].op
              else cp == null
      ensures cp != null ==> var s := if active then sys[hv].act else sys[hv].ina; k < |s| && cp == s[k]
    {
      active := true;
      cp, k := SearchIn(hv, true, oid, live);
      if cp == null {
        active := false;
        cp, k := SearchIn(hv, false, oid, live);
      }
    }

    /** cache_put; it fails when the object is missing or the cache is not ready. */
    method Put(obj: Option<T>, oid: int) returns (failed: bool)
      requires Valid()
      modifies this, Nodes
      ensures Valid() && fresh(Nodes - old(Nodes)) && initted == old(initted)
      ensures failed == (obj.None? || oid < 0 || !initted)
      ensures Abs() == if failed then old(Abs()) else CacheSpec.Put(old(Abs()), obj.value, oid)
    {
      failed := obj.None? || oid < 0 || !initted;
      if !failed {
        var hv := oid % cwidth;
        var cp, active, k := FindIn(hv, oid, false);
        if cp != null {
          StoreIn(hv, cp, active, k, obj.value);
        } else {
          ReplaceIn(hv, oid, obj.value, true);
        }
      }
    }

    method Check(oid: int) returns (r: bool)
      requires Valid()
      ensures r == (initted && CacheSpec.Check(Abs(), oid))
    {
      if oid < 0 || !initted {
        return false;
      }
      var cp, _, _ := FindIn(oid % cwidth, oid, true);
      return cp != null || oid in store;
    }

    method Del(oid: int)
      requires Valid()
      modifies this, Nodes
      ensures Valid() && Nodes == old(Nodes) && initted == old(initted)
      ensures Abs() == if initted then CacheSpec.Del(old(Abs()), oid) else old(Abs())
    {
      if oid < 0 || !initted {
        return;
      }
      KillIn(oid % cwidth, oid);
      store := store - {oid};
    }
  }

  lemma {:induction false} TotalAppend<T>(buckets: seq<Chains<T>>, c: Chains<T>)
    ensures Total(buckets + [c]) == Total(buckets) + |c.All()|
  {
    if buckets == [] {
      assert buckets + [c] == [c];
    } else {
      TotalAppend(buckets[1..], c);
      assert (buckets + [c])[1..] == buckets[1..] + [c];
    }
  }

  ghost function Total<T>(buckets: seq<Chains<T>>): nat {
    if buckets == [] then 0 else |buckets[0].All()| + Total(buckets[1..])
  }

  lemma {:induction false} TotalUpdate<T>(buckets: seq<Chains<T>>, b: nat, c: Chains<T>)
    requires b < |buckets|
    ensures Total(buckets[b := c]) == Total(buckets) - |buckets[b].All()| + |c.All()|
  {
    if b > 0 {
      TotalUpdate(buckets[1..], b - 1, c);
      assert buckets[b := c][1..] == buckets[1..][b - 1 := c];
    } else {
      assert buckets[b := c][1..] == buckets[1..];
    }
  }
}

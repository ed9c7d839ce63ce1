/** The object cache over the chunk file (src/src/cache.c:128-408 over src/src/dbmchunk.c:378-521). The file is the
    one of ChunkStore, changed in place; the cells of the cache are values here, as in CacheSpec. */
module Database {
  import opened Wrappers
  import opened CacheSpec
  import opened CacheProof
  import opened CacheOverFile
  import opened Bitmap
  import PackSpec
  import PackProof
  import PackAgain
  import ChunkStore

  type Obj = PackSpec.Object

  /** Every number of the object fits its field, and it takes no more than 480 blocks: room is always found then. */
  predicate Small(obj: Obj, bsiz: nat) {
    bsiz > 0 && PackProof.Storable(obj) && BlocksNeeded(PackSpec.SizeObject(obj), bsiz) <= 480
  }

  /** An object that was read can be put again. */
  lemma RereadSmall(obj: Obj, bsiz: nat)
    requires Small(obj, bsiz)
    ensures Small(PackProof.NormObject(obj), bsiz)
  {
    hide PackProof.Storable, PackSpec.SizeObject;
    PackAgain.ObjectFits(obj);
    BlocksMonotone(PackSpec.SizeObject(PackProof.NormObject(obj)), PackSpec.SizeObject(obj), bsiz);
  }

  lemma {:induction false} BlocksMonotone(less: nat, siz: nat, bsiz: nat)
    requires bsiz > 0 && less <= siz
    ensures BlocksNeeded(less, bsiz) <= BlocksNeeded(siz, bsiz)
  {
    if less > bsiz { BlocksMonotone(less - bsiz, siz - bsiz, bsiz); }
  }

  /** What a cell has still to write can be written. */
  predicate CellSmall(c: Slot<Obj>, bsiz: nat) { c.dirty && c.op.Some? ==> Small(c.op.value, bsiz) }

  predicate AllSmall(s: seq<Slot<Obj>>, bsiz: nat) { forall i :: 0 <= i < |s| ==> CellSmall(s[i], bsiz) }

  lemma CleanSmall(s: seq<Slot<Obj>>, bsiz: nat)
    ensures AllSmall(Clean(s), bsiz)
  {
  }

  predicate BucketSmall(c: Chains<Obj>, bsiz: nat) { AllSmall(c.active, bsiz) && AllSmall(c.inactive, bsiz) }

  predicate OpSmall(op: Op<Obj>, bsiz: nat) { op.OPut? ==> Small(op.obj, bsiz) }

  class CachedFile {
    const file: ChunkStore.Store
    var buckets: seq<Chains<Obj>>
    var resets: int

    ghost predicate Valid()
      reads this, file, file.dbf`data, file.blocks`bitblox, file.blocks`bitm, file.blocks.bitm
    {
      |buckets| > 0 && file.Valid() && forall b :: 0 <= b < |buckets| ==> BucketSmall(buckets[b], file.bsiz)
    }

    /** The cells, and what was put into the file. */
    ghost function Abs(): State<Obj>
      reads this, file`objects
    {
      State(buckets, file.objects, resets)
    }

    constructor (file: ChunkStore.Store, width: nat, depth: nat)
      requires file.Valid() && width > 0
      ensures Valid() && this.file == file && Abs() == Initial(width, depth, file.objects)
    {
      this.file, resets := file, 0;
      buckets := Initial<Obj>(width, depth, map[]).buckets;
    }

    /** DB_PUT. */
    method Write(out: Option<(Obj, int)>)
      requires file.Valid() && (out.Some? ==> Small(out.value.0, file.bsiz))
      modifies file, file.dbf, file.blocks, file.blocks.bitm
      ensures file.Valid() && file.objects == WriteBack(old(file.objects), out)
      ensures file.blocks.bitm == old(file.blocks.bitm) || fresh(file.blocks.bitm)
    {
      if out.Some? {
        var failed := file.Put(out.value.0, out.value.1);
      }
    }

    /** A new cell; what it pushes out is written. */
    method Link(hv: nat, cell: Slot<Obj>)
      requires Valid() && hv < |buckets| && CellSmall(cell, file.bsiz)
      modifies this, file, file.dbf, file.blocks, file.blocks.bitm
      ensures Valid() && Abs() == LinkNew(old(Abs()), hv, cell)
      ensures file.blocks.bitm == old(file.blocks.bitm) || fresh(file.blocks.bitm)
    {
      var c := buckets[hv];
      assert BucketSmall(c, file.bsiz);
      Write(PushedOut(c));
      buckets := buckets[hv := Entered(c, cell)];
    }

    /** cache_get. */
    method Get(oid: int) returns (r: Option<Obj>)
      requires Valid()
      modifies this, file, file.dbf, file.blocks, file.blocks.bitm
      ensures Valid() && (Abs(), r) == GetOver(old(Abs()), oid, PackProof.NormObject)
      ensures file.blocks.bitm == old(file.blocks.bitm) || fresh(file.blocks.bitm)
    {
      if oid < 0 { return None; }
      var hv := oid % |buckets|;
      var c := buckets[hv];
      assert BucketSmall(c, file.bsiz);
      var a, i := Index(c.active, oid, true), Index(c.inactive, oid, true);
      if a < |c.active| { return c.active[a].op; }
      if i < |c.inactive| {
        buckets := buckets[hv := Promoted(c, i, resets)];
        return c.inactive[i].op;
      }
      r := file.Get(oid);
      if r.Some? { Link(hv, Slot(oid, r, false, false, resets)); }
    }

    /** cache_put. */
    method Put(obj: Obj, oid: int)
      requires Valid() && Small(obj, file.bsiz)
      modifies this, file, file.dbf, file.blocks, file.blocks.bitm
      ensures Valid() && Abs() == CacheSpec.Put(old(Abs()), obj, oid)
      ensures file.blocks.bitm == old(file.blocks.bitm) || fresh(file.blocks.bitm)
    {
      if oid < 0 { return; }
      var hv := oid % |buckets|;
      var c := buckets[hv];
      assert BucketSmall(c, file.bsiz);
      var a, i := Index(c.active, oid, false), Index(c.inactive, oid, false);
      if a < |c.active| {
        buckets := buckets[hv := Stored(c, true, a, obj)];
      } else if i < |c.inactive| {
        buckets := buckets[hv := Stored(c, false, i, obj)];
      } else {
        Link(hv, Slot(oid, Some(obj), true, false, resets));
      }
    }

    /** cache_del. */
    method Del(oid: int)
      requires Valid()
      modifies this, file, file.dbf, file.blocks, file.blocks.bitm
      ensures Valid() && Abs() == CacheSpec.Del(old(Abs()), oid)
      ensures file.blocks.bitm == old(file.blocks.bitm) || fresh(file.blocks.bitm)
    {
      if oid < 0 { return; }
      var hv := oid % |buckets|;
      assert BucketSmall(buckets[hv], file.bsiz);
      buckets := buckets[hv := Killed(buckets[hv], oid)];
      var failed := file.Del(oid);
    }

    /** cache_check. */
    method Check(oid: int) returns (there: bool)
      requires Valid()
      ensures there == CacheSpec.Check(Abs(), oid)
    {
      if oid < 0 { return false; }
      var c := buckets[oid % |buckets|];
      if Index(c.active, oid, true) < |c.active| || Index(c.inactive, oid, true) < |c.inactive| { return true; }
      there := file.Check(oid);
    }

    /** cache_reset. */
    method Reset()
      requires Valid()
      modifies this
      ensures Valid() && Abs() == CacheSpec.Reset(old(Abs()))
    {
      forall b | 0 <= b < |buckets| ensures BucketSmall(Rechain(buckets[b]), file.bsiz) {
        assert BucketSmall(buckets[b], file.bsiz);
      }
      buckets, resets := seq(|buckets|, i requires 0 <= i < |buckets| reads this => Rechain(buckets[i])), resets + 1;
    }

    /** The dirty cells of a chain are written. */
    method WriteChain(s: seq<Slot<Obj>>)
      requires file.Valid() && AllSmall(s, file.bsiz)
      modifies file, file.dbf, file.blocks, file.blocks.bitm
      ensures file.Valid() && file.objects == SyncStore(s, old(file.objects))
      ensures file.blocks.bitm == old(file.blocks.bitm) || fresh(file.blocks.bitm)
    {
      for i := 0 to |s|
        invariant file.Valid() && SyncStore(s[i..], file.objects) == SyncStore(s, old(file.objects))
        invariant file.blocks.bitm == old(file.blocks.bitm) || fresh(file.blocks.bitm)
      {
        assert s[i..][0] == s[i] && s[i..][1..] == s[i + 1..] && CellSmall(s[i], file.bsiz);
        Write(if s[i].dirty && s[i].op.Some? then Some((s[i].op.value, s[i].oid)) else None);
      }
    }

    /** cache_sync. */
    method Sync()
      requires Valid()
      modifies this, file, file.dbf, file.blocks, file.blocks.bitm
      ensures Valid() && Abs() == CacheSpec.Sync(old(Abs()))
      ensures file.blocks.bitm == old(file.blocks.bitm) || fresh(file.blocks.bitm)
    {
      hide Small, Clean, SyncStore;
      for x := 0 to |buckets|
        invariant Valid() && |buckets| == |old(buckets)| && SyncFrom(Abs(), x) == CacheSpec.Sync(old(Abs()))
        invariant file.blocks.bitm == old(file.blocks.bitm) || fresh(file.blocks.bitm)
      {
        var c := buckets[x];
        assert BucketSmall(c, file.bsiz);
        WriteChain(c.active);
        WriteChain(c.inactive);
        CleanSmall(c.active, file.bsiz);
        CleanSmall(c.inactive, file.bsiz);
        buckets := buckets[x := Chains(Clean(c.active), Clean(c.inactive))];
      }
    }

    method Do(op: Op<Obj>) returns (r: Answer<Obj>)
      requires Valid() && OpSmall(op, file.bsiz)
      modifies this, file, file.dbf, file.blocks, file.blocks.bitm
      ensures Valid() && (Abs(), r) == StepOver(old(Abs()), op, PackProof.NormObject)
      ensures file.blocks.bitm == old(file.blocks.bitm) || fresh(file.blocks.bitm)
    {
      r := Nothing;
      match op {
        case OGet(oid) =>
          var o := Get(oid);
          r := Object(o);
        case OPut(obj, oid) => Put(obj, oid);
        case ODel(oid) => Del(oid);
        case OCheck(oid) =>
          var there := Check(oid);
          r := Exists(there);
        case OSync => Sync();
        case OReset => Reset();
      }
    }

    method DoAll(ops: seq<Op<Obj>>) returns (rs: seq<Answer<Obj>>)
      requires Valid() && forall i :: 0 <= i < |ops| ==> OpSmall(ops[i], file.bsiz)
      modifies this, file, file.dbf, file.blocks, file.blocks.bitm
      ensures Valid() && (Abs(), rs) == RunOver(old(Abs()), ops, PackProof.NormObject)
      ensures file.blocks.bitm == old(file.blocks.bitm) || fresh(file.blocks.bitm)
    {
      hide StepOver;
      rs := [];
      assert ops[0..] == ops;
      for i := 0 to |ops|
        invariant Valid() && (file.blocks.bitm == old(file.blocks.bitm) || fresh(file.blocks.bitm))
        invariant RunOver(Abs(), ops[i..], PackProof.NormObject).0 == RunOver(old(Abs()), ops, PackProof.NormObject).0
        invariant rs + RunOver(Abs(), ops[i..], PackProof.NormObject).1 == RunOver(old(Abs()), ops, PackProof.NormObject).1
      {
        assert ops[i..][0] == ops[i] && ops[i..][1..] == ops[i + 1..];
        ghost var was := Abs();
        var r := Do(ops[i]);
        RunOverStep(was, Abs(), ops[i..], r);
        JoinOne(rs, r, RunOver(Abs(), ops[i + 1..], PackProof.NormObject).1);
        rs := rs + [r];
      }
      assert ops[|ops|..] == [];
      RunOverNone(Abs(), ops[|ops|..]);
      JoinNone(rs);
    }
  }

  lemma RunOverStep(s: State<Obj>, t: State<Obj>, ops: seq<Op<Obj>>, r: Answer<Obj>)
    requires |s.buckets| > 0 && |t.buckets| > 0 && ops != [] && StepOver(s, ops[0], PackProof.NormObject) == (t, r)
    ensures var (u, rs) := RunOver(t, ops[1..], PackProof.NormObject);
            RunOver(s, ops, PackProof.NormObject) == (u, [r] + rs)
  {
    hide StepOver;
  }

  lemma RunOverNone(s: State<Obj>, ops: seq<Op<Obj>>)
    requires |s.buckets| > 0 && ops == []
    ensures RunOver(s, ops, PackProof.NormObject) == (s, [])
  {
  }

  lemma JoinNone<T>(rs: seq<T>)
    ensures rs + [] == rs
  {
  }

  lemma JoinOne<T>(rs: seq<T>, r: T, more: seq<T>)
    ensures rs + ([r] + more) == rs + [r] + more
  {
  }

  /** The cache over the file answers every run of gets, puts, deletes, checks, syncs and resets as one plain map of
      objects would, but that an object got may have been packed and unpacked once; and after a final sync the file
      holds exactly the map. */
  method Serve(file: ChunkStore.Store, width: nat, depth: nat, ops: seq<Op<Obj>>) returns (rs: seq<Answer<Obj>>)
    requires file.Valid() && width > 0 && (forall oid :: oid in file.objects ==> oid >= 0)
    requires forall i :: 0 <= i < |ops| ==> OpSmall(ops[i], file.bsiz)
    requires PutsLive(Initial(width, depth, file.objects), ops)
    modifies file, file.dbf, file.blocks, file.blocks.bitm
    ensures file.Valid() && file.objects == MapRun(old(file.objects), ops).0
    ensures SameAnswers(MapRun(old(file.objects), ops).1, rs, PackProof.NormObject)
  {
    hide RunOver, MapRun, CacheSpec.Sync, PutsLive, Initial;
    StackRefinesMap(width, depth, file.objects, ops);
    var db := new CachedFile(file, width, depth);
    rs := db.DoAll(ops);
    db.Sync();
  }
}

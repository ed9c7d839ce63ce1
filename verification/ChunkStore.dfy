/** The database file (src/src/dbmchunk.c): objects packed into chunks of whole blocks, found through
    an index of offsets and sizes, with the free blocks in a bitmap. */
module ChunkStore {
  import opened Wrappers
  import opened Bitmap
  import opened PackSpec
  import opened PackProof
  import opened PackIO
  import PackKeeps

  datatype Rec = Rec(off: nat, siz: nat)

  function Lbn(r: Rec, bsiz: nat): nat
    requires bsiz > 0
  {
    LogicalBlock(r.off, bsiz)
  }

  predicate Aligned(r: Rec, bsiz: nat)
    requires bsiz > 0
  {
    r.off == BlockOffset(Lbn(r, bsiz), bsiz)
  }

  predicate Apart(r: Rec, q: Rec, bsiz: nat)
    requires bsiz > 0
  {
    Lbn(r, bsiz) + BlocksNeeded(r.siz, bsiz) <= Lbn(q, bsiz) || Lbn(q, bsiz) + BlocksNeeded(q.siz, bsiz) <= Lbn(r, bsiz)
  }

  const LEAST := 34  // the bytes of an object without parents, symbols, methods, variables, verbs and locks

  /** Where r says, the file holds these bytes. */
  ghost predicate Placed(r: Rec, image: string, data: string, bsiz: nat) {
    && bsiz > 0 && Aligned(r, bsiz) && r.siz == |image| && r.siz >= LEAST && r.off + r.siz <= |data|
    && data[r.off..r.off + r.siz] == image
  }

  ghost predicate PlacedAt(index: map<int, Rec>, images: map<int, string>, data: string, bsiz: nat, a: int) {
    a in index ==> a in images && Placed(index[a], images[a], data, bsiz)
  }

  ghost predicate ApartAt(index: map<int, Rec>, bsiz: nat, a: int, b: int)
    requires bsiz > 0
  {
    a in index && b in index && a != b ==> Apart(index[a], index[b], bsiz)
  }

  /** The file and its index hold exactly these packed objects, in extents of their own. */
  ghost predicate Holds(index: map<int, Rec>, images: map<int, string>, data: string, bsiz: nat) {
    && bsiz > 0 && index.Keys == images.Keys
    && (forall a {:trigger PlacedAt(index, images, data, bsiz, a)} :: PlacedAt(index, images, data, bsiz, a))
    && (forall a, b {:trigger ApartAt(index, bsiz, a, b)} :: ApartAt(index, bsiz, a, b))
  }

  /** Extents that share no block share no byte. */
  lemma BytesApart(r: Rec, q: Rec, bsiz: nat)
    requires bsiz > 0 && Aligned(r, bsiz) && Aligned(q, bsiz) && Apart(r, q, bsiz)
    ensures r.off + r.siz <= q.off || q.off + q.siz <= r.off
  {
    BlocksSuffice(r.siz, bsiz);
    BlocksSuffice(q.siz, bsiz);
    var i, j, m, n := Lbn(r, bsiz), Lbn(q, bsiz), BlocksNeeded(r.siz, bsiz), BlocksNeeded(q.siz, bsiz);
    OffsetAdd(i, m, bsiz);
    OffsetAdd(j, n, bsiz);
    if i + m <= j {
      OffsetAdd(i + m, j - i - m, bsiz);
    } else {
      OffsetAdd(j + n, i - j - n, bsiz);
    }
  }

  /** Bytes written over one extent leave what lies in another as it was. */
  lemma WriteKeeps(r: Rec, image: string, data: string, bsiz: nat, off: nat, bytes: string)
    requires Placed(r, image, data, bsiz) && (r.off + r.siz <= off || off + |bytes| <= r.off)
    ensures Placed(r, image, Overwrite(data, off, bytes), bsiz)
  {
    assert Overwrite(data, off, bytes)[r.off..r.off + r.siz] == data[r.off..r.off + r.siz];
  }

  lemma WritePlaces(r: Rec, image: string, data: string, bsiz: nat)
    requires bsiz > 0 && Aligned(r, bsiz) && r.siz == |image| && r.siz >= LEAST
    ensures Placed(r, image, Overwrite(data, r.off, image), bsiz)
  {
  }

  /** Putting an object at r, apart from all others. */
  lemma PutHolds(index: map<int, Rec>, images: map<int, string>, data: string, bsiz: nat, oid: int, r: Rec, image: string)
    requires Holds(index, images, data, bsiz) && Aligned(r, bsiz) && r.siz == |image| && r.siz >= LEAST
    requires forall a :: a in index && a != oid ==> Apart(index[a], r, bsiz)
    ensures Holds(index[oid := r], images[oid := image], Overwrite(data, r.off, image), bsiz)
  {
    var index', images', data' := index[oid := r], images[oid := image], Overwrite(data, r.off, image);
    forall a ensures PlacedAt(index', images', data', bsiz, a) {
      assert PlacedAt(index, images, data, bsiz, a);
      if a == oid {
        WritePlaces(r, image, data, bsiz);
      } else if a in index {
        BytesApart(index[a], r, bsiz);
        WriteKeeps(index[a], images[a], data, bsiz, r.off, image);
      }
    }
    forall a, b ensures ApartAt(index', bsiz, a, b) {
      assert ApartAt(index, bsiz, a, b);
    }
  }

  /** Deleting an object and writing over its first bytes. */
  lemma DelHolds(index: map<int, Rec>, images: map<int, string>, data: string, bsiz: nat, oid: int, bytes: string)
    requires Holds(index, images, data, bsiz) && oid in index && |bytes| <= LEAST
    ensures Holds(index - {oid}, images - {oid}, Overwrite(data, index[oid].off, bytes), bsiz)
  {
    var r, index', images' := index[oid], index - {oid}, images - {oid};
    var data' := Overwrite(data, r.off, bytes);
    assert PlacedAt(index, images, data, bsiz, oid);
    forall a ensures PlacedAt(index', images', data', bsiz, a) {
      assert PlacedAt(index, images, data, bsiz, a);
      if a in index' {
        assert ApartAt(index, bsiz, a, oid);
        BytesApart(index[a], r, bsiz);
        WriteKeeps(index[a], images[a], data, bsiz, r.off, bytes);
      }
    }
    forall a, b ensures ApartAt(index', bsiz, a, b) {
      assert ApartAt(index, bsiz, a, b);
    }
  }

  lemma SplitAt(data: string, off: nat, bytes: string)
    requires off + |bytes| <= |data| && data[off..off + |bytes|] == bytes
    ensures data[off..] == bytes + data[off + |bytes|..]
  {
    assert data[off..][..|bytes|] == data[off..off + |bytes|];
  }

  lemma KeysNamed(index: map<int, Rec>, images: map<int, string>, data: string, bsiz: nat, keys: seq<int>)
    requires Holds(index, images, data, bsiz) && forall a :: a in index <==> a in keys
    ensures forall j :: 0 <= j < |keys| ==> keys[j] in index && index[keys[j]].siz > 0
  {
    forall j | 0 <= j < |keys| ensures keys[j] in index && index[keys[j]].siz > 0 {
      assert keys[j] in keys;
      assert PlacedAt(index, images, data, bsiz, keys[j]);
    }
  }

  ghost predicate PackedAt(objects: map<int, Object>, images: map<int, string>, a: int) {
    a in objects ==> a in images && Storable(objects[a]) && images[a] == PackObject(objects[a])
  }

  /** The images are these objects, packed. */
  ghost predicate Packed(objects: map<int, Object>, images: map<int, string>) {
    objects.Keys == images.Keys && forall a {:trigger PackedAt(objects, images, a)} :: PackedAt(objects, images, a)
  }

  lemma PackedPut(objects: map<int, Object>, images: map<int, string>, oid: int, o: Object)
    requires Packed(objects, images) && Storable(o)
    ensures Packed(objects[oid := o], images[oid := PackObject(o)])
  {
    hide PackObject, Storable;
    var objects', images' := objects[oid := o], images[oid := PackObject(o)];
    forall a ensures PackedAt(objects', images', a) { assert PackedAt(objects, images, a); }
  }

  lemma PackedDel(objects: map<int, Object>, images: map<int, string>, oid: int)
    requires Packed(objects, images)
    ensures Packed(objects - {oid}, images - {oid})
  {
    forall a ensures PackedAt(objects - {oid}, images - {oid}, a) { assert PackedAt(objects, images, a); }
  }

  /** Every block of a live extent is seen as taken, and lies well below the top of the bitmap. */
  ghost predicate KeptAt(index: map<int, Rec>, bsiz: nat, v: nat -> bool, top: nat, a: int)
    requires bsiz > 0
  {
    a in index ==>
      && Lbn(index[a], bsiz) + BlocksNeeded(index[a].siz, bsiz) <= top - 32
      && Taken(v, Lbn(index[a], bsiz), BlocksNeeded(index[a].siz, bsiz))
  }

  ghost predicate Kept(index: map<int, Rec>, bsiz: nat, v: nat -> bool, top: nat)
    requires bsiz > 0
  {
    forall a {:trigger KeptAt(index, bsiz, v, top, a)} :: KeptAt(index, bsiz, v, top, a)
  }

  lemma UsedMore(index: map<int, Rec>, bsiz: nat, v: nat -> bool, top: nat, v': nat -> bool, top': nat)
    requires bsiz > 0 && Kept(index, bsiz, v, top) && top <= top' && forall k :: v(k) ==> v'(k)
    ensures Kept(index, bsiz, v', top')
  {
    forall a ensures KeptAt(index, bsiz, v', top', a) { assert KeptAt(index, bsiz, v, top, a); }
  }

  /** A new extent where all was clear: it is apart from the others, and all of them are in use. */
  lemma UsedAlloc(index: map<int, Rec>, bsiz: nat, v: nat -> bool, top: nat, oid: int, r: Rec, top': nat)
    requires bsiz > 0 && Kept(index - {oid}, bsiz, v, top) && top <= top'
    requires var l, n := Lbn(r, bsiz), BlocksNeeded(r.siz, bsiz); n > 0 && Clear(v, l, n) && l + n <= top' - 32
    requires forall a :: a in index ==> index[a].siz > 0
    ensures Kept(index[oid := r], bsiz, WithRun(v, Lbn(r, bsiz), BlocksNeeded(r.siz, bsiz)), top')
    ensures forall a :: a in index && a != oid ==> Apart(index[a], r, bsiz)
  {
    var l, n := Lbn(r, bsiz), BlocksNeeded(r.siz, bsiz);
    var v', index' := WithRun(v, l, n), index[oid := r];
    forall a ensures KeptAt(index', bsiz, v', top', a) && (a in index && a != oid ==> Apart(index[a], r, bsiz)) {
      assert KeptAt(index - {oid}, bsiz, v, top, a);
      if a in index && a != oid { TakenApart(v, Lbn(index[a], bsiz), BlocksNeeded(index[a].siz, bsiz), l, n); }
    }
  }

  /** Giving up the extent of oid leaves those of the others in use. */
  lemma UsedRelease(index: map<int, Rec>, bsiz: nat, v: nat -> bool, top: nat, oid: int)
    requires bsiz > 0 && Kept(index, bsiz, v, top) && oid in index
    requires forall a, b {:trigger ApartAt(index, bsiz, a, b)} :: ApartAt(index, bsiz, a, b)
    ensures Kept(index - {oid}, bsiz, WithoutRun(v, Lbn(index[oid], bsiz), BlocksNeeded(index[oid].siz, bsiz)), top)
  {
    var l, n := Lbn(index[oid], bsiz), BlocksNeeded(index[oid].siz, bsiz);
    var v', index' := WithoutRun(v, l, n), index - {oid};
    forall a ensures KeptAt(index', bsiz, v', top, a) {
      assert KeptAt(index, bsiz, v, top, a) && ApartAt(index, bsiz, a, oid);
      if a in index' { TakenWithout(v, Lbn(index[a], bsiz), BlocksNeeded(index[a].siz, bsiz), l, n); }
    }
  }

  /** An object that fits where it is stays there; the blocks it no longer needs stay marked. */
  lemma UsedShrink(index: map<int, Rec>, bsiz: nat, v: nat -> bool, top: nat, oid: int, siz: nat)
    requires bsiz > 0 && Kept(index, bsiz, v, top) && oid in index
    requires forall a, b {:trigger ApartAt(index, bsiz, a, b)} :: ApartAt(index, bsiz, a, b)
    requires BlocksNeeded(siz, bsiz) <= BlocksNeeded(index[oid].siz, bsiz)
    ensures var r := Rec(index[oid].off, siz);
            Kept(index[oid := r], bsiz, v, top) && forall a :: a in index && a != oid ==> Apart(index[a], r, bsiz)
  {
    var r := Rec(index[oid].off, siz);
    var index' := index[oid := r];
    forall a ensures KeptAt(index', bsiz, v, top, a) && (a in index && a != oid ==> Apart(index[a], r, bsiz)) {
      assert KeptAt(index, bsiz, v, top, a) && ApartAt(index, bsiz, a, oid);
    }
  }

  class Store {
    const bsiz: nat
    const blocks: BlockMap
    const dbf: Stream
    var index: map<int, Rec>
    ghost var objects: map<int, Object>  // what was put under each number
    ghost var images: map<int, string>   // and what it looks like packed

    ghost predicate BitmapOk()
      reads blocks`bitblox, blocks`bitm
    {
      blocks.Valid() && blocks.bitblox >= GROWTH && blocks.bsiz == bsiz && bsiz > 0
    }

    /** The extents of distinct objects are disjoint, every block of theirs is marked, and the bytes of
        each are its object packed. */
    ghost predicate Valid()
      reads this, dbf`data, blocks`bitblox, blocks`bitm, blocks.bitm
    {
      && BitmapOk()
      && Holds(index, images, dbf.data, bsiz)
      && Packed(objects, images)
      && Kept(index, bsiz, blocks.Vision(), blocks.bitblox)
    }

    /** dddb_init: the bitmap is rebuilt from the index, whose keys come in any order. */
    constructor (index: map<int, Rec>, keys: seq<int>, data: string, bsiz: nat, junk: (nat, nat) -> bv8,
        ghost objects: map<int, Object>, ghost images: map<int, string>)
      requires Packed(objects, images) && Holds(index, images, data, bsiz) && forall a :: a in index <==> a in keys
      ensures Valid() && this.objects == objects && fresh(blocks) && fresh(dbf) && fresh(blocks.bitm)
    {
      hide Packed, Kept, PlacedAt, ApartAt;
      this.index, this.objects, this.images, this.bsiz := index, objects, images, bsiz;
      blocks := new BlockMap(bsiz, junk);
      dbf := new Stream(data);
      new;
      blocks.Grow(|data| / bsiz + GROWTH);
      KeysNamed(index, images, data, bsiz, keys);
      MarkExtents(keys);
    }

    /** The scan of the index: every extent becomes marked. */
    method MarkExtents(keys: seq<int>)
      requires BitmapOk() && (forall j :: 0 <= j < |keys| ==> keys[j] in index && index[keys[j]].siz > 0)
      requires forall a :: a in index ==> a in keys
      modifies blocks, blocks.bitm
      ensures BitmapOk() && (blocks.bitm == old(blocks.bitm) || fresh(blocks.bitm))
      ensures Kept(index, bsiz, blocks.Vision(), blocks.bitblox)
    {
      for i := 0 to |keys|
        invariant BitmapOk() && (blocks.bitm == old(blocks.bitm) || fresh(blocks.bitm))
        invariant forall j :: 0 <= j < i ==> InUse(index[keys[j]])
      {
        MarkExtent(index[keys[i]]);
      }
      forall a ensures KeptAt(index, bsiz, blocks.Vision(), blocks.bitblox, a) {
        if a in index {
          var j :| 0 <= j < |keys| && keys[j] == a;
          assert InUse(index[keys[j]]);
          blocks.RunSeen(Lbn(index[a], bsiz), BlocksNeeded(index[a].siz, bsiz), blocks.Vision());
        }
      }
    }

    ghost predicate InUse(r: Rec)
      requires bsiz > 0
      reads blocks`bitblox, blocks`bitm, blocks.bitm
    {
      blocks.RunMarked(Lbn(r, bsiz), BlocksNeeded(r.siz, bsiz))
    }

    method MarkExtent(r: Rec)
      requires BitmapOk() && r.siz > 0
      modifies blocks, blocks.bitm
      ensures BitmapOk() && (blocks.bitm == old(blocks.bitm) || fresh(blocks.bitm)) && InUse(r)
      ensures forall q {:trigger InUse(q)} :: old(InUse(q)) ==> InUse(q)
    {
      LogicalBlockIs(r.off, bsiz);
      blocks.Mark(r.off / bsiz, r.siz, true);
    }

    /** The allocation that a put of siz bytes may need can be met: it is small, or the search ends. */
    ghost predicate CanPut(oid: int, siz: nat)
      requires BitmapOk()
      reads this, blocks, blocks.bitm
    {
      var n := BlocksNeeded(siz, bsiz);
      var v := blocks.Vision();
      if oid !in index then CanAlloc(v, n, blocks.lastFree)
      else
        var lbn, m := Lbn(index[oid], bsiz), BlocksNeeded(index[oid].siz, bsiz);
        n > m ==> CanAlloc(WithoutRun(v, lbn, m), n, lbn)
    }

    ghost predicate CanAlloc(v: nat -> bool, n: nat, start: nat)
      reads blocks`bitblox
    {
      n <= 480 || Ends(v, n, Enter(start, blocks.bitblox, false))
    }

    /** A new extent for oid. */
    method NewExtent(oid: int, siz: nat, ghost v: nat -> bool) returns (r: Rec)
      requires BitmapOk() && siz > 0 && blocks.Sees(v) && Kept(index - {oid}, bsiz, v, blocks.bitblox)
      requires CanAlloc(v, BlocksNeeded(siz, bsiz), blocks.lastFree)
      requires forall a :: a in index ==> index[a].siz > 0
      modifies blocks, blocks.bitm
      ensures BitmapOk() && (blocks.bitm == old(blocks.bitm) || fresh(blocks.bitm))
      ensures Aligned(r, bsiz) && r.siz == siz
      ensures Kept(index[oid := r], bsiz, blocks.Vision(), blocks.bitblox)
      ensures forall a :: a in index && a != oid ==> Apart(index[a], r, bsiz)
    {
      ghost var n := BlocksNeeded(siz, bsiz);
      ghost var top := blocks.bitblox;
      if n <= 480 { blocks.SmallEnds(v, n); }
      var slbn := blocks.Alloc(siz, v);
      BlockOffsetIs(slbn, bsiz);
      OffsetBlock(slbn, bsiz);
      r := Rec(slbn * bsiz, siz);
      UsedAlloc(index, bsiz, v, top, oid, r, blocks.bitblox);
      blocks.SameSight(WithRun(v, slbn, n));
      UsedMore(index[oid := r], bsiz, WithRun(v, slbn, n), blocks.bitblox, blocks.Vision(), blocks.bitblox);
    }

    /** The extent of oid is given up, for a new one that may overlap it. */
    method Move(oid: int, siz: nat) returns (r: Rec)
      requires Valid() && oid in index && siz > 0 && CanPut(oid, siz)
      requires BlocksNeeded(siz, bsiz) > BlocksNeeded(index[oid].siz, bsiz)
      requires forall a :: a in index ==> index[a].siz > 0
      modifies blocks, blocks.bitm
      ensures BitmapOk() && (blocks.bitm == old(blocks.bitm) || fresh(blocks.bitm))
      ensures Aligned(r, bsiz) && r.siz == siz
      ensures Kept(index[oid := r], bsiz, blocks.Vision(), blocks.bitblox)
      ensures forall a :: a in index && a != oid ==> Apart(index[a], r, bsiz)
    {
      ghost var v := blocks.Vision();
      r := index[oid];
      ghost var lbn, m := Lbn(r, bsiz), BlocksNeeded(r.siz, bsiz);
      UsedRelease(index, bsiz, v, blocks.bitblox, oid);
      assert KeptAt(index, bsiz, v, blocks.bitblox, oid);
      LogicalBlockIs(r.off, bsiz);
      blocks.Release(r.off / bsiz, r.siz, v);
      r := NewExtent(oid, siz, WithoutRun(v, lbn, m));
    }

    /** Where dddb_put puts the object: in a new extent, a larger one, or the one it has. */
    method Place(oid: int, nsiz: nat) returns (r: Rec)
      requires Valid() && nsiz > 0 && CanPut(oid, nsiz)
      modifies blocks, blocks.bitm
      ensures BitmapOk() && (blocks.bitm == old(blocks.bitm) || fresh(blocks.bitm))
      ensures Aligned(r, bsiz) && r.siz == nsiz
      ensures Kept(index[oid := r], bsiz, blocks.Vision(), blocks.bitblox)
      ensures forall a :: a in index && a != oid ==> Apart(index[a], r, bsiz)
      ensures oid in index && BlocksNeeded(nsiz, bsiz) <= BlocksNeeded(index[oid].siz, bsiz) ==> r.off == index[oid].off
    {
      forall a | a in index ensures index[a].siz > 0 { assert PlacedAt(index, images, dbf.data, bsiz, a); }
      if oid in index {
        var n := blocks.CountBlocks(nsiz);
        var m := blocks.CountBlocks(index[oid].siz);
        if n > m {
          r := Move(oid, nsiz);
        } else {
          r := Rec(index[oid].off, nsiz);
          assert PlacedAt(index, images, dbf.data, bsiz, oid);
          UsedShrink(index, bsiz, blocks.Vision(), blocks.bitblox, oid, nsiz);
        }
      } else {
        assert index - {oid} == index;
        r := NewExtent(oid, nsiz, blocks.Vision());
      }
    }

    method Save(obj: Object, off: nat)
      modifies dbf
      ensures dbf.data == Overwrite(old(dbf.data), off, PackObject(obj))
    {
      hide PackObject;
      dbf.Seek(off);
      WriteObject(obj, dbf);
      assert [] + PackObject(obj) == PackObject(obj);
      dbf.Flush();
    }

    method SaveMark(off: nat)
      modifies dbf
      ensures dbf.data == Overwrite(old(dbf.data), off, "delobj")
    {
      dbf.Seek(off);
      dbf.Write("delobj");
      assert dbf.out == "delobj";
      dbf.Flush();
    }

    /** The table entry of an object just saved. */
    method Record(oid: int, r: Rec, ghost obj: Object, ghost image: string, ghost data: string)
      requires BitmapOk() && Holds(index, images, data, bsiz) && dbf.data == Overwrite(data, r.off, image)
      requires Packed(objects[oid := obj], images[oid := image])
      requires Kept(index[oid := r], bsiz, blocks.Vision(), blocks.bitblox)
      requires Aligned(r, bsiz) && r.siz == |image| && r.siz >= LEAST
      requires forall a :: a in index && a != oid ==> Apart(index[a], r, bsiz)
      modifies `index, `objects, `images
      ensures Valid() && objects == old(objects)[oid := obj]
    {
      PutHolds(index, images, data, bsiz, oid, r, image);
      index := index[oid := r];
      objects, images := objects[oid := obj], images[oid := image];
    }

    /** dddb_put. */
    method Put(obj: Object, oid: int) returns (failed: bool)
      requires Valid() && Storable(obj) && CanPut(oid, SizeObject(obj))
      modifies this, dbf, blocks, blocks.bitm
      ensures Valid() && !failed && objects == old(objects)[oid := obj]
      ensures blocks.bitm == old(blocks.bitm) || fresh(blocks.bitm)
    {
      var nsiz := CountObject(obj);
      StorableSize(obj);
      var r := Place(oid, nsiz);
      SaveAt(oid, r, obj);
      failed := false;
    }

    /** The object is written where it was placed. */
    method SaveAt(oid: int, r: Rec, obj: Object)
      requires BitmapOk() && Holds(index, images, dbf.data, bsiz) && Packed(objects, images) && Storable(obj)
      requires Kept(index[oid := r], bsiz, blocks.Vision(), blocks.bitblox)
      requires Aligned(r, bsiz) && r.siz == SizeObject(obj)
      requires forall a :: a in index && a != oid ==> Apart(index[a], r, bsiz)
      modifies `index, `objects, `images, dbf
      ensures Valid() && objects == old(objects)[oid := obj]
    {
      StorableSize(obj);
      PackedPut(objects, images, oid, obj);
      Save(obj, r.off);
      Record(oid, r, obj, PackObject(obj), old(dbf.data));
    }

    /** dddb_get: the object last put, as it reads back. */
    method Get(oid: int) returns (ret: Option<Object>)
      requires Valid()
      modifies dbf`pos, dbf`out
      ensures Valid() && ret == if oid in objects then Some(NormObject(objects[oid])) else None
      ensures ret.Some? && PackKeeps.GoodObject(objects[oid]) ==> PackKeeps.Keeps(objects[oid], ret.value)
    {
      hide PackKeeps.GoodObject, PackKeeps.Keeps, NormObject, PackObject, Storable, Kept, ApartAt;
      if oid !in index {
        return None;
      }
      assert PlacedAt(index, images, dbf.data, bsiz, oid) && PackedAt(objects, images, oid);
      var o := Load(index[oid].off, objects[oid]);
      ret := Some(o);
      if PackKeeps.GoodObject(objects[oid]) { PackKeeps.NormKeeps(objects[oid]); }
    }

    method Load(off: nat, ghost obj: Object) returns (o: Object)
      requires Storable(obj) && off + |PackObject(obj)| <= |dbf.data|
      requires dbf.data[off..off + |PackObject(obj)|] == PackObject(obj)
      modifies dbf`pos, dbf`out
      ensures o == NormObject(obj)
    {
      dbf.Seek(off);
      ghost var bytes := PackObject(obj);
      ghost var rest := dbf.data[off + |bytes|..];
      SplitAt(dbf.data, off, bytes);
      ObjectReads(obj, rest);
      o := GetObject(dbf);
    }

    /** dddb_check. */
    method Check(oid: int) returns (there: bool)
      requires Valid()
      ensures there == (oid in objects)
    {
      there := oid in index;
    }

    /** dddb_del: the mark it leaves in the file lies within the extent given up. */
    method Del(oid: int) returns (failed: int)
      requires Valid()
      modifies this, dbf, blocks, blocks.bitm
      ensures Valid() && failed == 0 && objects == old(objects) - {oid} && blocks.bitm == old(blocks.bitm)
    {
      failed := 0;
      if oid !in index {
        assert objects - {oid} == objects;
        return;
      }
      var r := index[oid];
      DelHolds(index, images, dbf.data, bsiz, oid, "delobj");
      PackedDel(objects, images, oid);
      DropExtent(oid);
      index := index - {oid};
      objects, images := objects - {oid}, images - {oid};
      SaveMark(r.off);
    }

    method DropExtent(oid: int)
      requires Valid() && oid in index
      modifies blocks, blocks.bitm
      ensures BitmapOk() && blocks.bitm == old(blocks.bitm)
      ensures Kept(index - {oid}, bsiz, blocks.Vision(), blocks.bitblox)
    {
      ghost var v := blocks.Vision();
      ghost var lbn, m := Lbn(index[oid], bsiz), BlocksNeeded(index[oid].siz, bsiz);
      UsedRelease(index, bsiz, v, blocks.bitblox, oid);
      assert KeptAt(index, bsiz, v, blocks.bitblox, oid);
      LogicalBlockIs(index[oid].off, bsiz);
      blocks.Release(index[oid].off / bsiz, index[oid].siz, v);
      blocks.SameSight(WithoutRun(v, lbn, m));
      UsedMore(index - {oid}, bsiz, WithoutRun(v, lbn, m), blocks.bitblox, blocks.Vision(), blocks.bitblox);
    }
  }
}

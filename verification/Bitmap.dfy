/** The free-block bitmap of the chunk file (src/src/dbmchunk.c): a byte array that grows, and the
    first-fit search over it.

    A growing bitmap copies one byte too few and zeroes one byte too few: the byte before the old
    top is whatever malloc left there. The contents of fresh memory are the arbitrary function
    `junk` of the block's size and the byte's place in it. */
module Bitmap {

  const GROWTH := 512  // DDDB_BITBLOCK, in blocks

  function Mask(i: nat): bv8
    requires i < 8
  {
    if i == 0 then 1 else if i == 1 then 2 else if i == 2 then 4 else if i == 3 then 8
    else if i == 4 then 16 else if i == 5 then 32 else if i == 6 then 64 else 128
  }

  predicate Bit(b: bv8, i: nat)
    requires i < 8
  {
    b & Mask(i) != 0
  }

  function WithBit(b: bv8, i: nat, on: bool): bv8
    requires i < 8
  {
    if on then b | Mask(i) else b & !Mask(i)
  }

  lemma WithBitAt(b: bv8, i: nat, on: bool, j: nat)
    requires i < 8 && j < 8
    ensures Bit(WithBit(b, i, on), j) == if i == j then on else Bit(b, j)
  {
  }

  lemma SameBlock(j: nat, k: nat)
    ensures j == k <==> j / 8 == k / 8 && j % 8 == k % 8
  {
  }

  // ---------------------------------------------------------------- blocks and bytes

  /** The blocks that siz bytes take. */
  function BlocksNeeded(siz: nat, bsiz: nat): (n: nat)
    requires bsiz > 0
    ensures siz > 0 ==> n > 0
  {
    if siz == 0 then 0 else if siz <= bsiz then 1 else 1 + BlocksNeeded(siz - bsiz, bsiz)
  }

  /** The byte where block lbn begins. */
  function BlockOffset(lbn: nat, bsiz: nat): nat {
    if lbn == 0 then 0 else bsiz + BlockOffset(lbn - 1, bsiz)
  }

  /** The block that byte off lies in. */
  function LogicalBlock(off: nat, bsiz: nat): nat
    requires bsiz > 0
  {
    if off < bsiz then 0 else 1 + LogicalBlock(off - bsiz, bsiz)
  }

  lemma DivLess(a: nat, b: nat)
    requires b > 0 && a >= b
    ensures (a - b) / b == a / b - 1 && (a - b) % b == a % b
  {
    var q, r := a / b - 1, a % b;
    assert a - b == q * b + r;
    DivUnique(a - b, b, q, r);
  }

  lemma DivUnique(a: nat, b: nat, q: int, r: nat)
    requires b > 0 && a == q * b + r && r < b
    ensures a / b == q && a % b == r
  {
    var d := a / b - q;
    assert d * b == r - a % b;
    if d != 0 { MulBig(d, b); }
  }

  lemma {:induction false} MulBig(d: int, b: nat)
    requires d != 0
    ensures d * b >= b || d * b + b <= 0
  {
    if b > 0 {
      MulBig(d, b - 1);
      assert d * b == d * (b - 1) + d;
    }
  }

  /** The macros compute the same with a division. */
  lemma {:induction false} BlocksNeededIs(siz: nat, bsiz: nat)
    requires bsiz > 0
    ensures BlocksNeeded(siz, bsiz) == if siz % bsiz != 0 then siz / bsiz + 1 else siz / bsiz
    decreases siz
  {
    if siz > bsiz {
      BlocksNeededIs(siz - bsiz, bsiz);
      DivLess(siz, bsiz);
    } else if siz == bsiz {
      DivUnique(siz, bsiz, 1, 0);
    } else {
      DivUnique(siz, bsiz, 0, siz);
    }
  }

  lemma {:induction false} LogicalBlockIs(off: nat, bsiz: nat)
    requires bsiz > 0
    ensures LogicalBlock(off, bsiz) == off / bsiz
  {
    if off >= bsiz {
      LogicalBlockIs(off - bsiz, bsiz);
      DivLess(off, bsiz);
    } else {
      DivUnique(off, bsiz, 0, off);
    }
  }

  lemma {:induction false} BlockOffsetIs(lbn: nat, bsiz: nat)
    ensures BlockOffset(lbn, bsiz) == lbn * bsiz
  {
    if lbn > 0 {
      BlockOffsetIs(lbn - 1, bsiz);
      assert lbn * bsiz == bsiz + (lbn - 1) * bsiz;
    }
  }

  lemma {:induction false} OffsetBlock(lbn: nat, bsiz: nat)
    requires bsiz > 0
    ensures LogicalBlock(BlockOffset(lbn, bsiz), bsiz) == lbn
  {
    if lbn > 0 { OffsetBlock(lbn - 1, bsiz); }
  }

  lemma {:induction false} OffsetAdd(a: nat, b: nat, bsiz: nat)
    ensures BlockOffset(a + b, bsiz) == BlockOffset(a, bsiz) + BlockOffset(b, bsiz)
  {
    if b > 0 { OffsetAdd(a, b - 1, bsiz); }
  }

  lemma {:induction false} BlocksSuffice(siz: nat, bsiz: nat)
    requires bsiz > 0
    ensures siz <= BlockOffset(BlocksNeeded(siz, bsiz), bsiz)
    decreases siz
  {
    if siz > bsiz { BlocksSuffice(siz - bsiz, bsiz); }
  }

  // ---------------------------------------------------------------- what the bitmap shows

  /** Blocks from s on that are clear, n of them. */
  ghost predicate Clear(v: nat -> bool, s: nat, n: nat) { forall k :: s <= k < s + n ==> !v(k) }

  ghost predicate Taken(v: nat -> bool, s: nat, n: nat) { forall k :: s <= k < s + n ==> v(k) }

  lemma TakenApart(v: nat -> bool, l: nat, m: nat, s: nat, n: nat)
    requires Taken(v, l, m) && Clear(v, s, n) && n > 0
    ensures m == 0 || l + m <= s || s + n <= l
  {
    assert l <= s < l + m ==> v(s);
    assert s <= l < s + n ==> !v(l);
  }

  lemma TakenWithout(v: nat -> bool, l: nat, m: nat, s: nat, n: nat)
    requires Taken(v, l, m) && (l + m <= s || s + n <= l)
    ensures Taken(WithoutRun(v, s, n), l, m)
  {
  }

  ghost function WithoutRun(v: nat -> bool, s: nat, n: nat): nat -> bool { (k: nat) => v(k) && !(s <= k < s + n) }

  ghost function WithRun(v: nat -> bool, s: nat, n: nat): nat -> bool { (k: nat) => v(k) || s <= k < s + n }

  // ---------------------------------------------------------------- the search, block by block

  /** Block lbn is looked at next, in a run that began at slbn, in a bitmap of top blocks. */
  datatype Hunt = Hunt(lbn: nat, slbn: nat, top: nat, wrapped: bool)

  /** A new run at lbn: the search wraps around at the top once, after that it grows the bitmap. */
  function Enter(lbn: nat, top: nat, wrapped: bool): Hunt {
    if lbn < top - 32 then Hunt(lbn, lbn, top, wrapped)
    else if !wrapped then Hunt(0, 0, top, true)
    else Hunt(lbn, lbn, top + 488, true)
  }

  ghost predicate Done(v: nat -> bool, n: nat, h: Hunt) { !v(h.lbn) && h.lbn + 1 >= h.slbn + n }

  ghost function Next(v: nat -> bool, n: nat, h: Hunt): Hunt {
    if v(h.lbn) then Enter(h.lbn + 1, h.top, h.wrapped)
    else h.(lbn := h.lbn + 1, top := if h.lbn + 1 >= h.top - 32 then h.top + 488 else h.top)
  }

  ghost function After(v: nat -> bool, n: nat, h: Hunt, f: nat): Hunt {
    if f == 0 then h else Next(v, n, After(v, n, h, f - 1))
  }

  /** Step f is the one that ends the search. */
  ghost predicate EndsAt(v: nat -> bool, n: nat, h: Hunt, f: nat) {
    Done(v, n, After(v, n, h, f)) && forall g: nat :: g < f ==> !Done(v, n, After(v, n, h, g))
  }

  ghost predicate Ends(v: nat -> bool, n: nat, h: Hunt) { exists f: nat :: EndsAt(v, n, h, f) }

  lemma StepOn(v: nat -> bool, n: nat, start: Hunt, end: nat, f: nat, h: Hunt)
    requires EndsAt(v, n, start, end) && f <= end && After(v, n, start, f) == h && !Done(v, n, h)
    ensures f < end && After(v, n, start, f + 1) == Next(v, n, h)
  {
  }

  lemma EndIs(v: nat -> bool, n: nat, start: Hunt, end: nat, f: nat)
    requires EndsAt(v, n, start, end) && f <= end && Done(v, n, After(v, n, start, f))
    ensures f == end
  {
  }

  lemma TakenNotDone(v: nat -> bool, n: nat, h: Hunt)
    requires v(h.lbn)
    ensures !Done(v, n, h) && Next(v, n, h) == Enter(h.lbn + 1, h.top, h.wrapped)
  {
  }

  /** A clear run lies ahead of the search, or it will wrap around and one lies anywhere: it wraps when
      it starts at the top, or when it is stopped at the last block before the top. */
  ghost predicate CanEnd(v: nat -> bool, n: nat, start: nat, top: nat)
    requires top >= GROWTH
  {
    exists s: nat :: Clear(v, s, n) && (s >= start || start >= top - 32 || v(top - 33))
  }

  ghost predicate Hunting(v: nat -> bool, n: nat, h: Hunt) {
    h.slbn <= h.lbn < h.slbn + n && h.lbn < h.top - 32 && h.top >= GROWTH && Clear(v, h.slbn, h.lbn - h.slbn)
  }

  lemma {:induction false} Finds(v: nat -> bool, n: nat, h: Hunt, f: nat, s: nat)
    requires forall g: nat :: g < f ==> !Done(v, n, After(v, n, h, g))
    requires Hunting(v, n, After(v, n, h, f)) && Clear(v, s, n)
    requires var h' := After(v, n, h, f); h'.slbn <= s || (!h'.wrapped && v(h'.top - 33))
    ensures Ends(v, n, h)
    decreases !After(v, n, h, f).wrapped,
              var h' := After(v, n, h, f); if h'.slbn <= s then s + n - h'.lbn else h'.top - h'.lbn
  {
    if Done(v, n, After(v, n, h, f)) {
      assert EndsAt(v, n, h, f);
    } else {
      assert After(v, n, h, f + 1) == Next(v, n, After(v, n, h, f));
      Finds(v, n, h, f + 1, s);
    }
  }

  /** The tops that a growing search passes. */
  predicate Top(top: nat, t: nat) { t == top || (t >= top + 488 && Top(top, t - 488)) }

  lemma {:induction false} TopAt(top: nat, t: nat)
    requires Top(top, t)
    ensures t >= top && (t - top) % 488 == 0
  {
    if t != top {
      TopAt(top, t - 488);
      assert (t - top) % 488 == (t - 488 - top) % 488;
    }
  }

  lemma SeamClear(junk: (nat, nat) -> bv8, top: nat, t: nat)
    requires top >= GROWTH && top % 8 == 0 && Top(top, t)
    ensures t >= top && !Seam(junk, top, t + 455)
  {
    TopAt(top, t);
    assert (t + 455 - (top - 8)) % 488 == 463;
  }

  /** A search that is not stopped at the last block before the top never wraps around. */
  lemma {:induction false} NoLateWrap(v: nat -> bool, n: nat, start: nat, top: nat, f: nat)
    requires n > 0 && top >= GROWTH && start < top - 32 && !v(top - 33)
    requires forall t: nat {:trigger Top(top, t)} :: Top(top, t) ==> t >= top && !v(t + 455)
    ensures var h := After(v, n, Enter(start, top, false), f);
            !h.wrapped && h.lbn < h.top - 32 && h.top >= top && Top(top, h.top) && !v(h.top - 33)
  {
    if f > 0 {
      NoLateWrap(v, n, start, top, f - 1);
      var h := After(v, n, Enter(start, top, false), f - 1);
      assert Top(top, h.top + 488);
    }
  }

  /** No clear run starts where the search has already been. */
  ghost predicate FirstFit(v: nat -> bool, n: nat, start: nat, h: Hunt) {
    && (h.wrapped || h.slbn >= start)
    && forall x: nat :: (if h.wrapped then 0 else start) <= x < h.slbn ==> !Clear(v, x, n)
  }

  lemma {:induction false} HuntingKept(v: nat -> bool, n: nat, start: nat, top: nat, f: nat)
    requires n > 0 && top >= GROWTH
    requires forall g: nat :: g < f ==> !Done(v, n, After(v, n, Enter(start, top, false), g))
    ensures var h := After(v, n, Enter(start, top, false), f); Hunting(v, n, h) && FirstFit(v, n, start, h)
  {
    if f > 0 {
      HuntingKept(v, n, start, top, f - 1);
      var h := After(v, n, Enter(start, top, false), f - 1);
      assert !Done(v, n, h);
      assert v(h.lbn) ==> forall x: nat :: h.slbn <= x <= h.lbn ==> !Clear(v, x, n);
    }
  }

  /** Exactly when dddb_alloc returns. */
  lemma EndsIff(v: nat -> bool, n: nat, junk: (nat, nat) -> bv8, start: nat, top: nat)
    requires n > 0 && top >= GROWTH && top % 8 == 0
    requires forall k :: k >= top - 8 ==> v(k) == Seam(junk, top, k)
    ensures Ends(v, n, Enter(start, top, false)) <==> CanEnd(v, n, start, top)
  {
    var h := Enter(start, top, false);
    if CanEnd(v, n, start, top) {
      var s: nat :| Clear(v, s, n) && (s >= start || start >= top - 32 || v(top - 33));
      assert After(v, n, h, 0) == h;
      Finds(v, n, h, 0, s);
    }
    if Ends(v, n, h) { EndsOnlyIf(v, n, junk, start, top); }
  }

  lemma EndsOnlyIf(v: nat -> bool, n: nat, junk: (nat, nat) -> bv8, start: nat, top: nat)
    requires n > 0 && top >= GROWTH && top % 8 == 0
    requires forall k :: k >= top - 8 ==> v(k) == Seam(junk, top, k)
    requires Ends(v, n, Enter(start, top, false))
    ensures CanEnd(v, n, start, top)
  {
    var h := Enter(start, top, false);
    var f: nat :| EndsAt(v, n, h, f);
    HuntingKept(v, n, start, top, f);
    assert Clear(v, After(v, n, h, f).slbn, n);
    if start < top - 32 && !v(top - 33) {
      forall t: nat {:trigger Top(top, t)} | Top(top, t) ensures t >= top && !v(t + 455) { SeamClear(junk, top, t); }
      NoLateWrap(v, n, start, top, f);
    }
  }

  /** A request of at most 480 blocks is always met, whatever junk the growing bitmap picks up. */
  lemma SmallFits(v: nat -> bool, n: nat, junk: (nat, nat) -> bv8, start: nat, top: nat)
    requires n <= 480 && top >= GROWTH && top % 8 == 0
    requires forall k :: k >= top - 8 ==> v(k) == Seam(junk, top, k)
    ensures CanEnd(v, n, start, top)
  {
    var s := top + 488 * start;
    forall k | s <= k < s + n ensures !v(k) {
      assert k - (top - 8) == 488 * start + (k - s + 8);
      assert (k - (top - 8)) % 488 == k - s + 8;
    }
    assert Clear(v, s, n);
  }

  /** With the junk byte clear every request is met. */
  lemma CleanFits(v: nat -> bool, n: nat, junk: (nat, nat) -> bv8, start: nat, top: nat)
    requires top >= GROWTH && top % 8 == 0
    requires forall k :: k >= top - 8 ==> v(k) == Seam(junk, top, k)
    requires forall m, i :: junk(m, i) == 0
    ensures CanEnd(v, n, start, top)
  {
    forall k | top + start <= k < top + start + n ensures !v(k) {
      assert !Seam(junk, top, k);
    }
    assert Clear(v, top + start, n);
  }

  /** Every block in use up to the last one the search looks at before growing, and every byte of
      fresh memory set. */
  predicate CrowdedSeen(k: nat) { if k < 512 then k < 487 else Seam((m, i) => 255, 520, k) }

  /** A request of 481 blocks then never returns, wherever the search begins. */
  lemma LargeNeverFits(v: nat -> bool, start: nat)
    requires forall k: nat :: v(k) == CrowdedSeen(k)
    ensures !Ends(v, 481, Enter(start, 520, false))
  {
    forall s: nat ensures !Clear(v, s, 481) {
      var k := CrowdedIn(s);
      assert v(k);
    }
    EndsIff(v, 481, (m, i) => 255, start, 520);
  }

  /** A search that begins in a clear run goes straight through it. */
  lemma {:induction false} Straight(v: nat -> bool, n: nat, f: nat)
    requires f < n <= 487 && Clear(v, 0, n)
    ensures After(v, n, Hunt(0, 0, 520, false), f) == Hunt(f, 0, 520, false)
  {
    if f > 0 { Straight(v, n, f - 1); }
  }

  lemma StraightEnds(v: nat -> bool, n: nat, f: nat)
    requires 0 < n <= 487 && Clear(v, 0, n) && EndsAt(v, n, Hunt(0, 0, 520, false), f)
    ensures After(v, n, Hunt(0, 0, 520, false), f) == Hunt(n - 1, 0, 520, false)
  {
    Straight(v, n, n - 1);
    assert Done(v, n, After(v, n, Hunt(0, 0, 520, false), n - 1));
    if f < n - 1 { Straight(v, n, f); }
  }

  lemma CrowdedIn(s: nat) returns (k: nat)
    ensures s <= k < s + 481 && CrowdedSeen(k)
  {
    if s < 512 {
      k := if s < 487 then s else 512;
    } else {
      var r := (s - 512) % 488;
      k := if r < 8 then s else s + (488 - r);
      hide Bit;
      assert (k - 512) % 488 < 8;
    }
  }

  /** What the search will find at block k >= b - 8 once a bitmap of b blocks has grown that far: the
      top byte of every growth is junk, the rest is clear. Each growth of the search adds 488 blocks. */
  predicate Seam(junk: (nat, nat) -> bv8, b: nat, k: nat)
    requires b >= 8 && b % 8 == 0 && k >= b - 8
  {
    var i, r := (k - (b - 8)) / 488, (k - (b - 8)) % 488;
    r < 8 && Bit(junk(b / 8 + 61 * i + 62, b / 8 + 61 * i - 1), r)
  }

  lemma SeamShift(junk: (nat, nat) -> bv8, b: nat, k: nat)
    requires b >= 8 && b % 8 == 0 && k >= b + 480
    ensures Seam(junk, b + 488, k) == Seam(junk, b, k)
  {
    var d := k - (b - 8);
    assert (d - 488) / 488 == d / 488 - 1 && (d - 488) % 488 == d % 488;
  }

  lemma AboveTop(b: nat, k: nat)
    requires b >= 8 && b % 8 == 0 && b - 8 <= k < b + 480
    ensures (k - (b - 8)) / 488 == 0
    ensures if k < b then (k - (b - 8)) % 488 == k % 8 else (k - (b - 8)) % 488 >= 8
  {
  }

  class BlockMap {
    const bsiz: nat
    const junk: (nat, nat) -> bv8
    var bitm: array<bv8>
    var bitblox: nat
    var lastFree: nat

    ghost predicate Valid()
      reads `bitm, `bitblox
    {
      && bsiz > 0 && bitblox % 8 == 0
      && bitm.Length == if bitblox == 0 then 0 else bitblox / 8 + 1
    }

    /** Block k is marked as taken. */
    predicate Marked(k: nat)
      reads `bitm, `bitblox, bitm
    {
      k < bitblox && k / 8 < bitm.Length && Bit(bitm[k / 8], k % 8)
    }

    /** The blocks of an extent are all marked, and lie well below the top. */
    ghost predicate RunMarked(lbn: nat, n: nat)
      reads `bitm, `bitblox, bitm
    {
      lbn + n <= bitblox - 32 && forall k: nat {:trigger Marked(k)} :: lbn <= k < lbn + n ==> Marked(k)
    }

    /** Block k as the search sees it, now or after growing. */
    predicate Seen(k: nat)
      requires Valid() && bitblox >= 8
      reads `bitm, `bitblox, bitm
    {
      if k < bitblox - 8 then Marked(k) else Seam(junk, bitblox, k)
    }

    constructor (bsiz: nat, junk: (nat, nat) -> bv8)
      requires bsiz > 0
      ensures Valid() && bitblox == 0 && lastFree == 0 && this.bsiz == bsiz && this.junk == junk && fresh(bitm)
    {
      this.bsiz, this.junk := bsiz, junk;
      bitm, bitblox, lastFree := new bv8[0], 0, 0;
    }

    /** BLOCKS_NEEDED. */
    method CountBlocks(siz: nat) returns (n: nat)
      requires bsiz > 0
      ensures n == BlocksNeeded(siz, bsiz)
    {
      BlocksNeededIs(siz, bsiz);
      n := if siz % bsiz != 0 then siz / bsiz + 1 else siz / bsiz;
    }

    /** growbit. */
    method Grow(maxblok: nat)
      requires Valid()
      modifies this`bitm, this`bitblox
      ensures Valid()
      ensures var nsiz := (maxblok + 8) + (8 - maxblok % 8);
              if nsiz <= old(bitblox) then bitm == old(bitm) && bitblox == old(bitblox)
              else fresh(bitm) && bitblox == nsiz - 8 && bitblox >= old(bitblox) && bitblox > maxblok
      ensures forall k {:trigger Marked(k)} :: 0 <= k < old(bitblox) - 8 ==> Marked(k) == old(Marked(k))
      ensures forall k {:trigger Marked(k)} :: old(bitblox) <= k ==> !Marked(k)
      ensures bitblox != old(bitblox) && old(bitblox) > 0 ==>
                forall k {:trigger Marked(k)} :: old(bitblox) - 8 <= k < old(bitblox) ==>
                  Marked(k) == Bit(junk(bitblox / 8 + 1, old(bitblox) / 8 - 1), k % 8)
    {
      var nsiz := (maxblok + 8) + (8 - maxblok % 8);
      assert nsiz == 8 * (maxblok / 8 + 2) && bitblox == 8 * (bitblox / 8);
      if nsiz <= bitblox {
        return;
      }
      var n := nsiz / 8;
      var nbit := new bv8[n](i => junk(n, i));
      var i := 0;
      while i < bitblox / 8 - 1
        modifies nbit
        invariant 0 <= i && (bitblox > 0 ==> i <= bitblox / 8 - 1) && (bitblox == 0 ==> i == 0)
        invariant forall j :: 0 <= j < n ==> nbit[j] == if j < i then bitm[j] else junk(n, j)
      {
        nbit[i] := bitm[i];
        i := i + 1;
      }
      ghost var copied := i;
      i := bitblox / 8;
      while i < n - 1
        modifies nbit
        invariant bitblox / 8 <= i <= n - 1
        invariant forall j :: 0 <= j < n ==>
          nbit[j] == if j < copied then bitm[j] else if bitblox / 8 <= j < i then 0 else junk(n, j)
      {
        nbit[i] := 0;
        i := i + 1;
      }
      bitm, bitblox := nbit, nsiz - 8;
    }

    method SetMark(k: nat, taken: bool)
      requires Valid() && k < bitblox
      modifies bitm
      ensures forall j: nat {:trigger Marked(j)} :: Marked(j) == if j == k then taken else old(Marked(j))
    {
      var b := bitm[k / 8];
      bitm[k / 8] := WithBit(b, k % 8, taken);
      forall j: nat ensures Marked(j) == if j == k then taken else old(Marked(j)) {
        SameBlock(j, k);
        WithBitAt(b, k % 8, taken, j % 8);
      }
    }

    /** dddb_mark: the blocks of an extent become taken or free. */
    method Mark(lbn: nat, siz: nat, taken: bool)
      requires Valid()
      modifies this`bitm, this`bitblox, this`lastFree, bitm
      ensures Valid() && bitblox >= old(bitblox) && (bitm == old(bitm) || fresh(bitm))
      ensures lastFree == if taken then old(lastFree) else lbn
      ensures BlocksNeeded(siz, bsiz) > 0 ==> lbn + BlocksNeeded(siz, bsiz) <= bitblox - 32
      ensures lbn + BlocksNeeded(siz, bsiz) <= old(bitblox) - 32 ==> bitblox == old(bitblox) && bitm == old(bitm)
      ensures forall k {:trigger Marked(k)} :: lbn <= k < lbn + BlocksNeeded(siz, bsiz) ==> Marked(k) == taken
      ensures forall k {:trigger Marked(k)} :: 0 <= k < old(bitblox) - 8 && !(lbn <= k < lbn + BlocksNeeded(siz, bsiz)) ==>
                Marked(k) == old(Marked(k))
      ensures taken && siz > 0 ==> RunMarked(lbn, BlocksNeeded(siz, bsiz))
      ensures forall l: nat, m: nat {:trigger RunMarked(l, m)} :: old(RunMarked(l, m)) ==>
                taken || l + m <= lbn || lbn + BlocksNeeded(siz, bsiz) <= l ==> RunMarked(l, m)
    {
      var bcnt := CountBlocks(siz);
      if !taken {
        lastFree := lbn;
      }
      var i := 0;
      while i < bcnt
        invariant i <= bcnt && Valid() && bitblox >= old(bitblox) && (bitm == old(bitm) || fresh(bitm))
        invariant lastFree == if taken then old(lastFree) else lbn
        invariant i > 0 ==> lbn + i <= bitblox - 32
        invariant lbn + i <= old(bitblox) - 32 ==> bitblox == old(bitblox) && bitm == old(bitm)
        invariant forall k {:trigger Marked(k)} :: lbn <= k < lbn + i ==> Marked(k) == taken
        invariant forall k {:trigger Marked(k)} :: 0 <= k < old(bitblox) - 8 && !(lbn <= k < lbn + i) ==>
                    Marked(k) == old(Marked(k))
      {
        if lbn + i >= bitblox - 32 {
          Grow(lbn + i + GROWTH);
        }
        SetMark(lbn + i, taken);
        i := i + 1;
      }
    }

    /** v says which blocks the search sees as taken, now or after growing. */
    ghost predicate Sees(v: nat -> bool)
      requires Valid() && bitblox >= 8
      reads `bitm, `bitblox, bitm
    {
      forall k: nat {:trigger Seen(k)} :: Seen(k) == v(k)
    }

    lemma RunSeen(l: nat, m: nat, v: nat -> bool)
      requires Valid() && bitblox >= GROWTH && Sees(v) && l + m <= bitblox - 32
      ensures RunMarked(l, m) <==> Taken(v, l, m)
    {
      forall k: nat | l <= k < l + m ensures Marked(k) == v(k) { assert Seen(k) == v(k); }
    }

    lemma SameSight(v: nat -> bool)
      requires Valid() && bitblox >= GROWTH && Sees(v)
      ensures forall k: nat :: Vision()(k) == v(k)
    {
      forall k: nat ensures Vision()(k) == v(k) { assert Seen(k) == v(k); }
    }

    lemma SmallEnds(v: nat -> bool, n: nat)
      requires Valid() && bitblox >= GROWTH && Sees(v) && 0 < n <= 480
      ensures Ends(v, n, Enter(lastFree, bitblox, false))
    {
      forall k | k >= bitblox - 8 ensures v(k) == Seam(junk, bitblox, k) { assert Seen(k) == v(k); }
      SmallFits(v, n, junk, lastFree, bitblox);
      EndsIff(v, n, junk, lastFree, bitblox);
    }

    ghost function Vision(): (v: nat -> bool)
      requires Valid() && bitblox >= 8
      reads `bitm, `bitblox, bitm
      ensures Sees(v)
    {
      var bytes, b, j := bitm[..], bitblox, junk;
      (k: nat) => if k < b - 8 then k / 8 < |bytes| && Bit(bytes[k / 8], k % 8)
                  else b >= 8 && b % 8 == 0 && Seam(j, b, k)
    }

    /** Growing at the search's own boundary changes nothing that the search sees. */
    method GrowTop(ghost v: nat -> bool)
      requires Valid() && bitblox >= GROWTH && Sees(v)
      modifies this`bitm, this`bitblox
      ensures Valid() && fresh(bitm) && bitblox == old(bitblox) + 488 && Sees(v)
    {
      hide Bit;
      ghost var b := bitblox;
      Grow(bitblox - 32 + GROWTH);
      forall k: nat ensures Seen(k) == v(k) {
        assert old(Seen(k)) == v(k);
        if k >= b + 480 {
          SeamShift(junk, b, k);
        } else if k >= b {
          AboveTop(b, k);
          assert !Marked(k);
        } else if k >= b - 8 {
          AboveTop(b, k);
          assert Marked(k) == Bit(junk(bitblox / 8 + 1, b / 8 - 1), k % 8);
        } else {
          assert Marked(k) == old(Marked(k));
        }
      }
    }

    /** The head of the outer loop of dddb_alloc. */
    method EnterRun(lbn: nat, overthetop: bool, ghost v: nat -> bool) returns (lbn': nat, overthetop': bool)
      requires Valid() && bitblox >= GROWTH && Sees(v) && (overthetop ==> lbn <= bitblox - 32)
      modifies this`bitm, this`bitblox
      ensures Valid() && bitblox >= old(bitblox) && (bitm == old(bitm) || fresh(bitm)) && Sees(v)
      ensures Hunt(lbn', lbn', bitblox, overthetop') == Enter(lbn, old(bitblox), overthetop)
    {
      lbn', overthetop' := lbn, overthetop;
      if lbn >= bitblox - 32 {
        if !overthetop {
          lbn', overthetop' := 0, true;
        } else {
          GrowTop(v);
        }
      }
    }

    /** The search has come f steps far, of the end that it takes in all, and looks at block lbn. */
    ghost predicate At(v: nat -> bool, n: nat, start: Hunt, end: nat, f: nat, h: Hunt)
      requires Valid() && bitblox >= 8
      reads `bitm, `bitblox, bitm
    {
      Sees(v) && EndsAt(v, n, start, end) && f <= end && After(v, n, start, f) == h && h.top == bitblox
    }

    /** Is block lbn free? */
    method Free(lbn: nat, ghost v: nat -> bool) returns (free: bool)
      requires Valid() && bitblox >= GROWTH && lbn < bitblox - 32 && Sees(v)
      ensures free == !v(lbn)
    {
      assert Seen(lbn) == v(lbn);
      free := !Marked(lbn);
    }

    /** The inner loop of dddb_alloc: bcnt clear blocks from slbn, or the first block that is not. */
    method Scan(slbn: nat, bcnt: nat, ghost v: nat -> bool, ghost start: Hunt, ghost end: nat, ghost f0: nat,
        ghost wrapped: bool) returns (lbn: nat, found: bool, ghost f: nat)
      requires Valid() && bitblox >= GROWTH && slbn < bitblox - 32 && bcnt > 0
      requires At(v, bcnt, start, end, f0, Hunt(slbn, slbn, bitblox, wrapped))
      modifies this`bitm, this`bitblox
      ensures Valid() && bitblox >= old(bitblox) && (bitm == old(bitm) || fresh(bitm)) && lbn < bitblox - 32 && f >= f0
      ensures At(v, bcnt, start, end, f, Hunt(lbn, slbn, bitblox, wrapped))
      ensures if found then Done(v, bcnt, Hunt(lbn, slbn, bitblox, wrapped)) else v(lbn)
    {
      lbn, f := slbn, f0;
      var tbcnt := bcnt;
      found := false;
      while true
        invariant Valid() && bitblox >= old(bitblox) && (bitm == old(bitm) || fresh(bitm))
        invariant slbn <= lbn < bitblox - 32 && tbcnt > 0 && lbn - slbn + tbcnt == bcnt && f >= f0
        invariant At(v, bcnt, start, end, f, Hunt(lbn, slbn, bitblox, wrapped))
        decreases tbcnt
      {
        var free := Free(lbn, v);
        if !free {
          return;
        }
        tbcnt := tbcnt - 1;
        if tbcnt == 0 {
          found := true;
          return;
        }
        ghost var h := Hunt(lbn, slbn, bitblox, wrapped);
        lbn := lbn + 1;
        if lbn >= bitblox - 32 {
          GrowTop(v);
        }
        StepOn(v, bcnt, start, end, f, h);
        f := f + 1;
      }
    }

    /** The search of dddb_alloc: from the last free block on, then once more from the start. It takes
        exactly the steps of the hunt. */
    method Search(bcnt: nat, ghost v: nat -> bool) returns (slbn: nat, ghost f: nat)
      requires Valid() && bcnt > 0 && bitblox >= GROWTH && Sees(v)
      requires Ends(v, bcnt, Enter(lastFree, bitblox, false))
      modifies this`bitm, this`bitblox
      ensures Valid() && bitblox >= old(bitblox) && (bitm == old(bitm) || fresh(bitm)) && Sees(v)
      ensures var start := Enter(lastFree, old(bitblox), false);
              EndsAt(v, bcnt, start, f) && After(v, bcnt, start, f).slbn == slbn
              && After(v, bcnt, start, f).top == bitblox
    {
      hide Seam, Clear, Done, Next, EndsAt;
      ghost var start := Enter(lastFree, bitblox, false);
      ghost var end: nat :| EndsAt(v, bcnt, start, end);
      var lbn: nat := lastFree;
      var overthetop := false;
      f := 0;
      while true
        invariant Valid() && bitblox >= old(bitblox) && (bitm == old(bitm) || fresh(bitm)) && Sees(v)
        invariant (overthetop ==> lbn <= bitblox - 32) && f <= end
        invariant EndsAt(v, bcnt, start, end) && After(v, bcnt, start, f) == Enter(lbn, bitblox, overthetop)
        decreases end - f
      {
        lbn, overthetop := EnterRun(lbn, overthetop, v);
        slbn := lbn;
        var found;
        lbn, found, f := Scan(slbn, bcnt, v, start, end, f, overthetop);
        ghost var h := Hunt(lbn, slbn, bitblox, overthetop);
        if found {
          EndIs(v, bcnt, start, end, f);
          return;
        }
        TakenNotDone(v, bcnt, h);
        StepOn(v, bcnt, start, end, f, h);
        lbn := lbn + 1;
        f := f + 1;
      }
    }

    /** Freeing an extent shows in what the search sees. */
    method Release(lbn: nat, siz: nat, ghost v: nat -> bool)
      requires Valid() && bitblox >= GROWTH && Sees(v) && lbn + BlocksNeeded(siz, bsiz) <= bitblox - 32
      modifies this`bitm, this`bitblox, this`lastFree, bitm
      ensures Valid() && bitblox == old(bitblox) && bitm == old(bitm) && lastFree == lbn
      ensures Sees(WithoutRun(v, lbn, BlocksNeeded(siz, bsiz)))
      ensures forall l: nat, m: nat {:trigger RunMarked(l, m)} :: old(RunMarked(l, m)) ==>
                l + m <= lbn || lbn + BlocksNeeded(siz, bsiz) <= l ==> RunMarked(l, m)
    {
      Mark(lbn, siz, false);
      forall k: nat ensures Seen(k) == WithoutRun(v, lbn, BlocksNeeded(siz, bsiz))(k) {
        assert old(Seen(k)) == v(k);
        if k < bitblox - 8 && !(lbn <= k < lbn + BlocksNeeded(siz, bsiz)) { assert Marked(k) == old(Marked(k)); }
      }
    }

    /** The marking loop of dddb_alloc. */
    method MarkRun(slbn: nat, bcnt: nat, ghost v: nat -> bool)
      requires Valid() && bitblox >= GROWTH && slbn + bcnt <= bitblox - 32 && Sees(v)
      modifies bitm
      ensures Sees(WithRun(v, slbn, bcnt))
    {
      var tbcnt := slbn;
      while tbcnt < slbn + bcnt
        invariant slbn <= tbcnt <= slbn + bcnt
        invariant Sees(WithRun(v, slbn, tbcnt - slbn))
      {
        label before:
        SetMark(tbcnt, true);
        forall k: nat ensures Seen(k) == WithRun(v, slbn, tbcnt + 1 - slbn)(k) {
          assert old@before(Seen(k)) == WithRun(v, slbn, tbcnt - slbn)(k);
          assert Marked(k) == if k == tbcnt then true else old@before(Marked(k));
        }
        tbcnt := tbcnt + 1;
      }
    }

    /** dddb_alloc: it takes the first clear run that is long enough, and nothing else. */
    method Alloc(siz: nat, ghost v: nat -> bool) returns (slbn: nat)
      requires Valid() && siz > 0 && bitblox >= GROWTH && Sees(v)
      requires Ends(v, BlocksNeeded(siz, bsiz), Enter(lastFree, bitblox, false))
      modifies this`bitm, this`bitblox, this`lastFree, bitm
      ensures Valid() && bitblox >= old(bitblox) && (bitm == old(bitm) || fresh(bitm))
      ensures slbn + BlocksNeeded(siz, bsiz) <= bitblox - 32 && lastFree == slbn + BlocksNeeded(siz, bsiz) - 1
      ensures Clear(v, slbn, BlocksNeeded(siz, bsiz)) && Sees(WithRun(v, slbn, BlocksNeeded(siz, bsiz)))
      ensures forall x: nat :: (if slbn >= old(lastFree) then old(lastFree) else 0) <= x < slbn ==>
                !Clear(v, x, BlocksNeeded(siz, bsiz))
      ensures var h := Enter(old(lastFree), old(bitblox), false);
              exists f: nat :: EndsAt(v, BlocksNeeded(siz, bsiz), h, f)
                               && After(v, BlocksNeeded(siz, bsiz), h, f).slbn == slbn
                               && After(v, BlocksNeeded(siz, bsiz), h, f).top == bitblox
    {
      var bcnt := CountBlocks(siz);
      ghost var f;
      slbn, f := Search(bcnt, v);
      HuntingKept(v, bcnt, old(lastFree), old(bitblox), f);
      MarkRun(slbn, bcnt, v);
      lastFree := slbn + bcnt - 1;
    }
  }

  /** An empty chunk file, with every byte of fresh memory set: after one allocation of 487 blocks there is no end
      to the search for 481 more. */
  method Crowd() returns (b: BlockMap)
    ensures fresh(b) && b.Valid() && b.bsiz == 1 && b.bitblox == 520
    ensures !Ends(b.Vision(), 481, Enter(b.lastFree, b.bitblox, false))
  {
    b := new BlockMap(1, (m, i) => 255);
    b.Grow(0 + GROWTH);
    ghost var v := b.Vision();
    forall k: nat ensures v(k) == (k >= 512 && Seam(b.junk, 520, k)) { assert b.Seen(k) == v(k); }
    BlocksNeededIs(487, 1);
    assert Clear(v, 0, 487);
    EndsIff(v, 487, b.junk, 0, 520);
    var slbn := b.Alloc(487, v);
    ghost var f: nat :| EndsAt(v, 487, Enter(0, 520, false), f) && After(v, 487, Enter(0, 520, false), f).slbn == slbn
                        && After(v, 487, Enter(0, 520, false), f).top == b.bitblox;
    StraightEnds(v, 487, f);
    b.SameSight(WithRun(v, 0, 487));
    LargeNeverFits(b.Vision(), b.lastFree);
  }
}

/** The cells and the doubly linked chains of one cache bucket. */
module CacheChains {
  import opened Wrappers
  import opened CacheSpec
  import opened CacheProof

  class Cell<T> {
    var oid: int
    var op: Option<T>
    var dirty: bool  // the C_DIRTY bit of flg
    var dead: bool   // the C_DEAD bit of flg
    var nxt: Cell?<T>
    var prv: Cell?<T>
    ghost var used: int

    constructor (oid: int, op: Option<T>, dirty: bool, ghost used: int)
      ensures View() == Slot(oid, op, dirty, false, used)
    {
      this.oid, this.op, this.dirty, this.dead := oid, op, dirty, false;
      this.nxt, this.prv, this.used := null, null, used;
    }

    ghost function View(): Slot<T>
      reads this`oid, this`op, this`dirty, this`dead, this`used
    {
      Slot(oid, op, dirty, dead, used)
    }
  }

  ghost function Views<T>(s: seq<Cell<T>>): (r: seq<Slot<T>>)
    reads s
    ensures |r| == |s|
  {
    seq(|s|, i requires 0 <= i < |s| reads s => s[i].View())
  }

  /** Cells whose contents are as before have the same views, whatever happened to their links. */
  twostate lemma ViewsKept<T>(s: seq<Cell<T>>)
    requires forall i :: 0 <= i < |s| ==> s[i].View() == old(s[i].View())
    ensures Views(s) == old(Views(s))
  {}

  twostate lemma ViewsUpdated<T>(s: seq<Cell<T>>, new k: nat, new v: Slot<T>)
    requires k < |s| && s[k].View() == v
    requires forall i :: 0 <= i < |s| && i != k ==> s[i].View() == old(s[i].View())
    ensures Views(s) == old(Views(s))[k := v]
  {}

  lemma ViewsSplit<T>(a: seq<Cell<T>>, b: seq<Cell<T>>)
    ensures Views(a + b) == Views(a) + Views(b)
  {}

  lemma LastOf<T>(s: seq<T>, t: seq<T>)
    requires |s| > 0
    ensures (s + t)[0] == s[0] && (s + t)[|s + t| - 1] == if |t| == 0 then s[|s| - 1] else t[|t| - 1]
  {}

  lemma LastWithout<T>(s: seq<T>, k: nat)
    requires k < |s|
    ensures var t := Without(s, k);
            |t| == |s| - 1 && (|t| > 0 ==> t[|t| - 1] == if k == |t| then s[k - 1] else s[|t|])
  {}

  ghost function At<T>(s: seq<T>, i: int): T
    requires 0 <= i < |s|
  {
    s[i]
  }

  /** No cell twice. The trigger keeps the pairs out of the way until a lemma below asks for them. */
  ghost predicate Distinct<T>(s: seq<Cell<T>>) {
    forall i, j {:trigger At(s, i), At(s, j)} :: 0 <= i < j < |s| ==> At(s, i) != At(s, j)
  }

  lemma Apart<T>(s: seq<Cell<T>>, k: nat)
    requires Distinct(s) && k < |s|
    ensures forall j :: 0 <= j < |s| && j != k ==> s[j] != s[k]
  {
    forall j | 0 <= j < |s| && j != k ensures s[j] != s[k] {
      assert At(s, j) == s[j] && At(s, k) == s[k];
    }
  }

  /** Cell k of the second of two chains is nowhere else on them. */
  lemma ApartInactive<T>(a: seq<Cell<T>>, s: seq<Cell<T>>, k: nat)
    requires Distinct(a + s) && k < |s|
    ensures forall j :: 0 <= j < |a| ==> a[j] != s[k]
    ensures forall j :: 0 <= j < |s| && j != k ==> s[j] != s[k]
  {
    Apart(a + s, |a| + k);
    assert forall j :: 0 <= j < |a| ==> a[j] == (a + s)[j];
    assert forall j :: 0 <= j < |s| ==> s[j] == (a + s)[|a| + j];
  }

  lemma ApartActive<T>(a: seq<Cell<T>>, s: seq<Cell<T>>, k: nat)
    requires Distinct(a + s) && k < |a|
    ensures forall j :: 0 <= j < |a| && j != k ==> a[j] != a[k]
    ensures forall j :: 0 <= j < |s| ==> s[j] != a[k]
  {
    Apart(a + s, k);
    assert forall j :: 0 <= j < |a| ==> a[j] == (a + s)[j];
    assert forall j :: 0 <= j < |s| ==> s[j] == (a + s)[|a| + j];
  }

  lemma DistinctWithout<T>(a: seq<Cell<T>>, s: seq<Cell<T>>, k: nat)
    requires Distinct(a + s) && k < |s|
    ensures Distinct(a + Without(s, k)) && s[k] !in a && s[k] !in Without(s, k)
  {
    var t, p := a + Without(s, k), |a| + k;
    forall i, j | 0 <= i < j < |t| ensures At(t, i) != At(t, j) {
      var i', j' := if i < p then i else i + 1, if j < p then j else j + 1;
      assert At(a + s, i') == t[i] && At(a + s, j') == t[j];
    }
    ApartInactive(a, s, k);
  }

  lemma DistinctCons<T>(s: seq<Cell<T>>, c: Cell<T>)
    requires Distinct(s) && c !in s
    ensures Distinct([c] + s)
  {
    var t := [c] + s;
    forall i, j | 0 <= i < j < |t| ensures At(t, i) != At(t, j) {
      if i > 0 { assert At(s, i - 1) == t[i] && At(s, j - 1) == t[j]; }
    }
  }

  lemma DistinctInsert<T>(a: seq<Cell<T>>, s: seq<Cell<T>>, c: Cell<T>)
    requires Distinct(a + s) && c !in a && c !in s
    ensures Distinct(a + ([c] + s))
  {
    var t, n := a + ([c] + s), |a|;
    forall i, j | 0 <= i < j < |t| ensures At(t, i) != At(t, j) {
      var i', j' := if i < n then i else i - 1, if j < n then j else j - 1;
      if i != n { assert At(a + s, i') == t[i]; }
      if j != n { assert At(a + s, j') == t[j]; }
    }
  }

  /** s is a chain linked both ways from end to end. */
  ghost predicate Linked<T>(s: seq<Cell<T>>)
    reads s`nxt, s`prv
  {
    |s| > 0 ==>
      && s[0].prv == null && s[|s| - 1].nxt == null
      && (forall i {:trigger s[i].nxt} :: 0 <= i < |s| - 1 ==> s[i].nxt == s[i + 1])
      && (forall i {:trigger s[i].prv} :: 1 <= i < |s| ==> s[i].prv == s[i - 1])
  }

  ghost predicate HeadOf<T>(s: seq<Cell<T>>, head: Cell?<T>) {
    if |s| == 0 then head == null else head == s[0]
  }

  twostate lemma LinkedKept<T>(s: seq<Cell<T>>)
    requires old(Linked(s))
    requires forall i :: 0 <= i < |s| ==> s[i].nxt == old(s[i].nxt) && s[i].prv == old(s[i].prv)
    ensures Linked(s)
  {}

  /** s is linked inside, between the given neighbours. */
  ghost predicate Segment<T>(s: seq<Cell<T>>, before: Cell?<T>, after: Cell?<T>)
    reads s`nxt, s`prv
  {
    |s| > 0 ==>
      && s[0].prv == before && s[|s| - 1].nxt == after
      && (forall i {:trigger s[i].nxt} :: 0 <= i < |s| - 1 ==> s[i].nxt == s[i + 1])
      && (forall i {:trigger s[i].prv} :: 1 <= i < |s| ==> s[i].prv == s[i - 1])
  }

  lemma JoinSegments<T>(p: seq<Cell<T>>, q: seq<Cell<T>>)
    requires Segment(p, null, if |q| > 0 then q[0] else null)
    requires Segment(q, if |p| > 0 then p[|p| - 1] else null, null)
    ensures Linked(p + q)
  {}

  /** The neighbours of s[k] now point past it, and nothing else moved. */
  twostate lemma Unlinked<T>(s: seq<Cell<T>>, new k: nat)
    requires old(Linked(s)) && k < |s|
    requires forall i :: 0 <= i < |s| && i != k - 1 ==> s[i].nxt == old(s[i].nxt)
    requires forall i :: 0 <= i < |s| && i != k + 1 ==> s[i].prv == old(s[i].prv)
    requires k > 0 ==> s[k - 1].nxt == old(s[k].nxt)
    requires k + 1 < |s| ==> s[k + 1].prv == old(s[k].prv)
    ensures Linked(Without(s, k))
  {
    var p, q := s[..k], s[k + 1..];
    assert old(Segment(p, null, s[k])) && old(Segment(q, s[k], null));
    JoinSegments(p, q);
  }

  twostate lemma Prepended<T>(s: seq<Cell<T>>, new cp: Cell<T>)
    requires old(Linked(s)) && cp.prv == null && HeadOf(s, cp.nxt)
    requires forall i :: 0 <= i < |s| ==> s[i].nxt == old(s[i].nxt)
    requires forall i :: 1 <= i < |s| ==> s[i].prv == old(s[i].prv)
    requires |s| > 0 ==> s[0].prv == cp
    ensures Linked([cp] + s)
  {}

  twostate lemma Joined<T>(all: seq<Cell<T>>, new n: nat)
    requires 0 < n <= |all| && old(Linked(all[..n])) && old(Linked(all[n..]))
    requires all[n - 1].nxt == (if n < |all| then all[n] else null) && (n < |all| ==> all[n].prv == all[n - 1])
    requires forall i :: 0 <= i < |all| && i != n ==> all[i].prv == old(all[i].prv)
    requires forall i :: 0 <= i < |all| && i != n - 1 ==> all[i].nxt == old(all[i].nxt)
    ensures Linked(all)
  {
    var s, t := all[..n], all[n..];
    assert forall i :: 0 <= i < n ==> all[i] == s[i];
    assert forall i :: n <= i < |all| ==> all[i] == t[i - n];
  }

  class CacheLst<T> {
    var ahead: Cell?<T>
    var ohead: Cell?<T>
    var atail: Cell?<T>
    var otail: Cell?<T>
    ghost var act: seq<Cell<T>>
    ghost var ina: seq<Cell<T>>

    ghost predicate Valid()
      reads this, act`nxt, act`prv, ina`nxt, ina`prv
    {
      && Distinct(act + ina)
      && Linked(act) && HeadOf(act, ahead)
      && Linked(ina) && HeadOf(ina, ohead)
      && (|act| > 0 ==> atail == act[|act| - 1])
      && (|ina| == 0 ==> otail == null)
      && (|ina| > 0 ==> otail == ina[|ina| - 1])
    }

    ghost function View(): Chains<T>
      reads this`act, this`ina, act, ina
    {
      Chains(Views(act), Views(ina))
    }

    ghost function Cells(): set<Cell<T>>
      reads this`act, this`ina
    {
      set c | c in act + ina
    }

    constructor ()
      ensures Valid() && act == [] && ina == []
    {
      ahead, ohead, atail, otail := null, null, null, null;
      act, ina := [], [];
    }

    /** The search loop over one chain: the first cell that holds oid. */
    method Search(active: bool, oid: int, live: bool) returns (cp: Cell?<T>, ghost k: nat)
      requires Valid()
      ensures var s := if active then act else ina;
              k == Index(Views(s), oid, live) && cp == if k < |s| then s[k] else null
    {
      ghost var s := if active then act else ina;
      assert Linked(s);
      cp, k := if active then ahead else ohead, 0;
      while cp != null && !(cp.oid == oid && (live ==> !cp.dead))
        invariant k <= |s| && cp == if k < |s| then s[k] else null
        invariant forall j :: 0 <= j < k ==> !(s[j].oid == oid && (live ==> !s[j].dead))
        decreases |s| - k
      {
        cp, k := cp.nxt, k + 1;
      }
      FirstIs(Views(s), oid, live, k);
    }

    /** The neighbours of cell k of chain s linked to each other across it. */
    static method Bridge(p: Cell?<T>, n: Cell?<T>, ghost a: seq<Cell<T>>, ghost s: seq<Cell<T>>, ghost k: nat)
      requires Distinct(a + s) && Linked(a) && Linked(s) && k < |s|
      requires p == (if k > 0 then s[k - 1] else null) && n == (if k + 1 < |s| then s[k + 1] else null)
      modifies s`nxt, s`prv
      ensures Linked(a) && Linked(Without(s, k))
    {
      assert s[k].prv == p && s[k].nxt == n;
      if k > 0 { ApartInactive(a, s, k - 1); }
      if k + 1 < |s| { ApartInactive(a, s, k + 1); }
      if n != null {
        n.prv := p;
      }
      if p != null {
        p.nxt := n;
      }
      LinkedKept(a);
      Unlinked(s, k);
    }

    /** Takes a cell out of the inactive chain, wherever it is. */
    method Dechain(cp: Cell<T>, ghost k: nat)
      requires Valid() && k < |ina| && ina[k] == cp
      modifies this, ina`nxt, ina`prv
      ensures Valid() && act == old(act) && ina == Without(old(ina), k)
    {
      ghost var s := ina;
      DistinctWithout(act, s, k);
      LastWithout(s, k);
      var prv, nxt := cp.prv, cp.nxt;
      assert prv == (if k > 0 then s[k - 1] else null) && nxt == (if k + 1 < |s| then s[k + 1] else null);
      Bridge(prv, nxt, act, s, k);
      if nxt == null {
        otail := prv;
      }
      if prv == null {
        ohead := nxt;
      }
      ina := Without(s, k);
    }

    /** Takes the last cell of the inactive chain, leaving its own links as they were. */
    method UnlinkTail() returns (cp: Cell<T>)
      requires Valid() && |ina| > 0
      modifies this, ina`nxt, ina`prv
      ensures Valid() && act == old(act) && ina == Without(old(ina), |old(ina)| - 1)
      ensures cp == old(ina)[|ina|] && cp !in act && cp !in ina
    {
      cp := otail;
      ghost var s := ina;
      ghost var n := |s| - 1;
      DistinctWithout(act, s, n);
      LastWithout(s, n);
      var prv := cp.prv;
      assert prv == (if n > 0 then s[n - 1] else null) && cp.nxt == null;
      Bridge(prv, cp.nxt, act, s, n);
      if prv != null {
        otail := prv;
      } else {
        ohead, otail := null, null;
      }
      ina := Without(s, n);
    }

    /** A cell put in front of a chain that starts at head. */
    static method Prepend(cp: Cell<T>, head: Cell?<T>, ghost s: seq<Cell<T>>, ghost other: seq<Cell<T>>)
      requires Linked(s) && HeadOf(s, head) && Linked(other) && cp !in s && cp !in other
      requires Distinct(s + other) || Distinct(other + s)
      modifies cp`nxt, cp`prv, s`prv
      ensures Linked([cp] + s) && Linked(other)
    {
      assert forall j :: 0 <= j < |s| ==> s[j] != cp;
      assert forall j :: 0 <= j < |other| ==> other[j] != cp;
      if |s| > 0 {
        if Distinct(s + other) { ApartActive(s, other, 0); } else { ApartInactive(other, s, 0); }
      }
      cp.nxt, cp.prv := head, null;
      if cp.nxt != null {
        cp.nxt.prv := cp;
      }
      LinkedKept(other);
      Prepended(s, cp);
    }

    /** Links a cell at the head of the active chain. */
    method LinkActive(cp: Cell<T>)
      requires Valid() && cp !in act && cp !in ina
      modifies this, cp`nxt, cp`prv, act`prv
      ensures Valid() && act == [cp] + old(act) && ina == old(ina)
    {
      DistinctCons(act + ina, cp);
      assert [cp] + (act + ina) == ([cp] + act) + ina;
      Prepend(cp, ahead, act, ina);
      if ahead == null {
        atail := cp;
      }
      ahead := cp;
      act := [cp] + act;
    }

    /** Links a cell at the head of the inactive chain, as cache_init does. */
    method LinkInactive(np: Cell<T>)
      requires Valid() && np !in act && np !in ina
      modifies this, np`nxt, np`prv, ina`prv
      ensures Valid() && ina == [np] + old(ina) && act == old(act)
    {
      DistinctInsert(act, ina, np);
      if ohead == null {
        otail := np;
      }
      Prepend(np, ohead, ina, act);
      ohead := np;
      ina := [np] + ina;
    }

    /** Two chains joined end to end. */
    static method Join(last: Cell<T>, second: Cell?<T>, ghost s: seq<Cell<T>>, ghost t: seq<Cell<T>>)
      requires Distinct(s + t) && Linked(s) && Linked(t) && HeadOf(t, second) && |s| > 0 && last == s[|s| - 1]
      modifies s`nxt, t`prv
      ensures Linked(s + t)
    {
      ApartActive(s, t, |s| - 1);
      if |t| > 0 { ApartInactive(s, t, 0); }
      last.nxt := second;
      if second != null {
        second.prv := last;
      }
      assert (s + t)[..|s|] == s && (s + t)[|s|..] == t;
      Joined(s + t, |s|);
    }

    /** The pointer updates of cache_reset, before the chain heads are moved. */
    method JoinChains()
      requires Valid() && ahead != null
      modifies this`otail, act`nxt, ina`prv
      ensures Linked(act + ina) && HeadOf(act + ina, ahead) && otail == (act + ina)[|act + ina| - 1]
    {
      LastOf(act, ina);
      Join(atail, ohead, act, ina);
      if otail == null {
        otail := atail;
      }
    }

    /** The active chain goes back to the head of the inactive chain. */
    method Rechain()
      requires Valid()
      modifies this, act`nxt, ina`prv
      ensures Valid() && act == [] && ina == old(act) + old(ina)
    {
      ghost var all := act + ina;
      assert Distinct([] + all) by { assert [] + all == all; }
      if ahead != null {
        JoinChains();
        ohead, ahead, act, ina := ahead, null, [], all;
      } else {
        assert all == ina;
      }
    }

    // -------------------------------------------------------------- what the cache does with a bucket

    /** A cell found on the inactive chain goes to the head of the active one. */
    method Activate(cp: Cell<T>, ghost k: nat, ghost now: int)
      requires Valid() && k < |ina| && ina[k] == cp
      modifies this, act, ina
      ensures Valid() && Cells() == old(Cells())
      ensures View() == Promoted(old(View()), k, now)
    {
      hide Distinct, HeadOf, Linked;
      ghost var a, i := act, ina;
      MovedCells(a, i, k);
      DistinctWithout(a, i, k);
      Dechain(cp, k);
      cp.used := now;
      LinkActive(cp);
      OthersKept(a, cp);
      OthersKept(Without(i, k), cp);
      ViewsSplit([cp], a);
      assert Views([cp]) == [old(cp.View()).(used := now)];
    }

    /** A cell for oid at the head of the active chain: the inactive tail is reused, its contents
        handed back for writing if dirty, or a new cell is made when there is none. */
    method Install(oid: int, obj: T, dirty: bool, ghost now: int) returns (written: Option<(T, int)>, grew: bool)
      requires Valid()
      modifies this, act, ina
      ensures Valid() && fresh(Cells() - old(Cells()))
      ensures grew == (|old(ina)| == 0) && written == PushedOut(old(View()))
      ensures View() == Entered(old(View()), Slot(oid, Some(obj), dirty, false, now))
    {
      grew := otail == null;
      var cp: Cell<T>;
      if grew {
        cp := new Cell(oid, Some(obj), dirty, now);
        written := None;
        ViewsKept(act);
        ViewsKept(ina);
      } else {
        cp, written := Recycle(oid, obj, dirty, now);
      }
      LinkFront(cp);
    }

    method LinkFront(cp: Cell<T>)
      requires Valid() && cp !in act && cp !in ina
      modifies this, cp`nxt, cp`prv, act`prv
      ensures Valid() && act == [cp] + old(act) && ina == old(ina)
      ensures View() == Chains([old(cp.View())] + old(View()).active, old(View()).inactive)
    {
      ghost var a := act;
      LinkActive(cp);
      ViewsKept(a);
      ViewsKept(ina);
      ViewsSplit([cp], a);
      assert Views([cp]) == [old(cp.View())];
    }

    /** The inactive tail, emptied of what it held and filled again. */
    method Recycle(oid: int, obj: T, dirty: bool, ghost now: int) returns (cp: Cell<T>, written: Option<(T, int)>)
      requires Valid() && |ina| > 0
      modifies this, ina
      ensures Valid() && act == old(act) && ina == Without(old(ina), |old(ina)| - 1)
      ensures cp == old(ina)[|ina|] && cp !in act && cp !in ina
      ensures cp.View() == Slot(oid, Some(obj), dirty, false, now)
      ensures Views(act) == old(Views(act)) && Views(ina) == old(Views(ina))[..|ina|]
      ensures var c := old(Views(ina))[|ina|];
              written == if c.dirty && c.oid >= 0 && c.op.Some? then Some((c.op.value, c.oid)) else None
    {
      cp := UnlinkTail();
      written := None;
      if cp.dirty && cp.oid >= 0 && cp.op.Some? {
        written := Some((cp.op.value, cp.oid));
      }
      Fill(cp, oid, obj, dirty, now);
    }

    method Fill(cp: Cell<T>, oid: int, obj: T, dirty: bool, ghost now: int)
      requires Valid() && cp !in act && cp !in ina
      modifies cp`op, cp`oid, cp`dirty, cp`dead, cp`used
      ensures Valid() && View() == old(View()) && cp.View() == Slot(oid, Some(obj), dirty, false, now)
    {
      cp.op, cp.oid, cp.dirty, cp.dead, cp.used := Some(obj), oid, dirty, false, now;
      ViewsKept(act);
      ViewsKept(ina);
    }

    /** A put on a cached number: new contents and the dirty bit, nothing else. */
    method Store(cp: Cell<T>, active: bool, ghost k: nat, obj: T)
      requires Valid() && var s := if active then act else ina; k < |s| && s[k] == cp
      modifies cp`op, cp`dirty
      ensures Valid()
      ensures View() == Stored(old(View()), active, k, obj)
    {
      cp.op, cp.dirty := Some(obj), true;
      if active {
        ApartActive(act, ina, k);
        ViewsKept(ina);
        ViewsUpdated(act, k, cp.View());
      } else {
        ApartInactive(act, ina, k);
        ViewsKept(act);
        ViewsUpdated(ina, k, cp.View());
      }
    }

    method MarkDead(cp: Cell<T>, active: bool, ghost k: nat)
      requires Valid() && var s := if active then act else ina; k < |s| && s[k] == cp
      modifies cp`dead, cp`dirty
      ensures Valid()
      ensures var c, dead := old(View()), old(cp.View()).(dirty := false, dead := true);
              View() == if active then c.(active := c.active[k := dead]) else c.(inactive := c.inactive[k := dead])
    {
      cp.dirty, cp.dead := false, true;
      if active {
        ApartActive(act, ina, k);
        ViewsKept(ina);
        ViewsUpdated(act, k, cp.View());
      } else {
        ApartInactive(act, ina, k);
        ViewsKept(act);
        ViewsUpdated(ina, k, cp.View());
      }
    }

    /** The loop of cache_del over one chain. */
    method Kill(active: bool, oid: int)
      requires Valid()
      modifies Cells()
      ensures Valid() && Cells() == old(Cells())
      ensures var c := old(View());
              View() == if active then c.(active := CacheSpec.Kill(c.active, oid))
                        else c.(inactive := CacheSpec.Kill(c.inactive, oid))
    {
      var cp, k := Search(active, oid, false);
      if cp != null {
        MarkDead(cp, active, k);
      }
    }

    method MarkClean(cp: Cell<T>, active: bool, ghost k: nat)
      requires Valid() && var s := if active then act else ina; k < |s| && s[k] == cp
      modifies cp`dirty
      ensures Valid()
      ensures var c, clean := old(View()), old(cp.View()).(dirty := false);
              View() == if active then c.(active := c.active[k := clean]) else c.(inactive := c.inactive[k := clean])
    {
      cp.dirty := false;
      if active {
        ApartActive(act, ina, k);
        ViewsKept(ina);
        ViewsUpdated(act, k, cp.View());
      } else {
        ApartInactive(act, ina, k);
        ViewsKept(act);
        ViewsUpdated(ina, k, cp.View());
      }
    }

    method FlushBoth(store: map<int, T>) returns (store': map<int, T>)
      requires Valid()
      modifies act`dirty, ina`dirty
      ensures Valid()
      ensures var c := old(View());
              && store' == SyncStore(c.inactive, SyncStore(c.active, store))
              && View() == Chains(Clean(c.active), Clean(c.inactive))
    {
      store' := Flush(true, store);
      store' := Flush(false, store');
    }

    /** Both chains after cache_reset. */
    method Reset()
      requires Valid()
      modifies this, act`nxt, ina`prv
      ensures Valid() && Cells() == old(Cells()) && View() == CacheSpec.Rechain(old(View()))
    {
      ghost var a, i := act, ina;
      Rechain();
      ViewsKept(a);
      ViewsKept(i);
      ViewsSplit(a, i);
      assert [] + (a + i) == a + i;
    }

    /** An empty cell at the head of the inactive chain. */
    method Add(np: Cell<T>)
      requires Valid() && np !in act && np !in ina
      modifies this, np`nxt, np`prv, ina`prv
      ensures Valid() && Cells() == old(Cells()) + {np}
      ensures View() == Chains(old(View()).active, [old(np.View())] + old(View()).inactive)
    {
      ghost var a, i := act, ina;
      LinkInactive(np);
      ViewsKept(a);
      ViewsKept(i);
      ViewsSplit([np], i);
      assert Views([np]) == [old(np.View())];
    }

    /** The scan of one chain has written out its first k cells and stands at cp. */
    ghost predicate Flushing(c: Chains<T>, active: bool, k: nat, cp: Cell?<T>)
      reads this, act, ina
    {
      var s, was := if active then act else ina, if active then c.active else c.inactive;
      && Valid() && k <= |s| == |was| && cp == (if k < |s| then s[k] else null)
      && View() == if active then c.(active := CleanTo(was, k)) else c.(inactive := CleanTo(was, k))
    }

    /** One cell of the chain: written if dirty, and clean after. */
    method FlushOne(cp: Cell<T>, active: bool, ghost k: nat, ghost c: Chains<T>, store: map<int, T>, ghost goal: map<int, T>)
      returns (nxt: Cell?<T>, store': map<int, T>)
      requires Flushing(c, active, k, cp) && Remaining(c, active, k, store, goal)
      modifies cp`dirty
      ensures Flushing(c, active, k + 1, nxt) && Remaining(c, active, k + 1, store', goal)
    {
      ghost var was := if active then c.active else c.inactive;
      CleanToNext(was, k);
      assert cp.View() == was[k];
      assert Linked(act) && Linked(ina);
      store' := store;
      if cp.dirty {
        if cp.op.Some? {
          store' := store'[cp.oid := cp.op.value];
        }
        MarkClean(cp, active, k);
      }
      nxt := cp.nxt;
      RemainingNext(c, active, k, store, goal);
    }

    /** The loop of cache_sync over one chain: every dirty cell written, in order, and clean after. */
    method Flush(active: bool, store: map<int, T>) returns (store': map<int, T>)
      requires Valid()
      modifies act`dirty, ina`dirty
      ensures Valid()
      ensures var c := old(View());
              && store' == SyncStore(if active then c.active else c.inactive, store)
              && View() == if active then c.(active := Clean(c.active)) else c.(inactive := Clean(c.inactive))
    {
      ghost var c, k := View(), 0;
      store' := store;
      var cp := if active then ahead else ohead;
      ghost var goal := FlushStarts(c, active, store);
      while cp != null
        invariant Flushing(c, active, k, cp)
        invariant Remaining(c, active, k, store', goal)
        decreases |c.active| + |c.inactive| - k
      {
        cp, store' := FlushOne(cp, active, k, c, store', goal);
        k := k + 1;
      }
      FlushEnds(c, active, store', goal);
    }
  }

  function Write<T>(c: Slot<T>, store: map<int, T>): map<int, T> {
    if c.dirty && c.op.Some? then store[c.oid := c.op.value] else store
  }

  /** Writing the chain from position k on gives goal. */
  ghost predicate Remaining<T>(c: Chains<T>, active: bool, k: nat, store: map<int, T>, goal: map<int, T>) {
    var s := if active then c.active else c.inactive;
    k <= |s| && SyncStore(s[k..], store) == goal
  }

  lemma FlushStarts<T>(c: Chains<T>, active: bool, store: map<int, T>) returns (goal: map<int, T>)
    ensures var was := if active then c.active else c.inactive;
            Remaining(c, active, 0, store, goal) && CleanTo(was, 0) == was && goal == SyncStore(was, store)
  {
    var was := if active then c.active else c.inactive;
    goal := SyncStore(was, store);
    assert was[0..] == was;
  }

  lemma FlushEnds<T>(c: Chains<T>, active: bool, store: map<int, T>, goal: map<int, T>)
    requires var was := if active then c.active else c.inactive;
             Remaining(c, active, |was|, store, goal)
    ensures var was := if active then c.active else c.inactive;
            store == goal && CleanTo(was, |was|) == Clean(was)
  {}

  lemma RemainingNext<T>(c: Chains<T>, active: bool, k: nat, store: map<int, T>, goal: map<int, T>)
    requires k < |if active then c.active else c.inactive| && Remaining(c, active, k, store, goal)
    ensures Remaining(c, active, k + 1, Write((if active then c.active else c.inactive)[k], store), goal)
  {
    var s := if active then c.active else c.inactive;
    assert s[k..][0] == s[k] && s[k..][1..] == s[k + 1..];
  }

  /** A chain of which the first k cells have been written out. */
  ghost function CleanTo<T>(s: seq<Slot<T>>, k: nat): (r: seq<Slot<T>>)
    requires k <= |s|
    ensures |r| == |s|
  {
    Clean(s[..k]) + s[k..]
  }

  lemma CleanToNext<T>(s: seq<Slot<T>>, k: nat)
    requires k < |s|
    ensures CleanTo(s, k)[k] == s[k] && s[k..][0] == s[k] && s[k..][1..] == s[k + 1..]
    ensures CleanTo(s, k + 1) == CleanTo(s, k)[k := s[k].(dirty := false)]
    ensures !s[k].dirty ==> CleanTo(s, k + 1) == CleanTo(s, k)
  {}

  /** Everything but one cell has its old contents. */
  twostate lemma OthersKept<T>(s: seq<Cell<T>>, new cell: Cell<T>)
    requires cell !in s && forall c :: c in s && c != cell ==> c.View() == old(c.View())
    ensures Views(s) == old(Views(s))
  {
    forall i | 0 <= i < |s| ensures s[i].View() == old(s[i].View()) { assert s[i] in s; }
    ViewsKept(s);
  }

  lemma MovedCells<T>(a: seq<Cell<T>>, i: seq<Cell<T>>, k: nat)
    requires k < |i|
    ensures (set c | c in ([i[k]] + a) + Without(i, k)) == (set c | c in a + i)
  {
    assert i == i[..k] + [i[k]] + i[k + 1..];
  }
}

/** The search for a method on an object and its ancestors (src/src/method.c:33-107): ancestors first, the
    rightmost parents before those to their left, every object once; the last definition found wins, but a
    blocked one ends the search. */
module MethodSearch {
  import opened Wrappers
  import opened Hierarchy

  function Last(s: seq<int>): int
    requires |s| > 0
  {
    s[|s| - 1]
  }

  // ---------------------------------------------------------------- the order of the search

  /** The objects seen, and then those searched from the end of path on. */
  ghost function Post(w: World, path: seq<int>, seen: seq<int>): seq<int>
    requires Acyclic(w) && Way(w, path)
    decreases |w| + 1 - |path|, 1, 0
  {
    WayBound(w, path);
    var o := Last(path);
    if o in seen || o !in w then seen else PostAll(w, path, 0, seen) + [o]
  }

  /** Those searched from the parents i and after on, the last one first. */
  ghost function PostAll(w: World, path: seq<int>, i: nat, seen: seq<int>): seq<int>
    requires Acyclic(w) && Way(w, path) && Last(path) in w && i <= |w[Last(path)].parents|
    decreases |w| + 1 - |path|, 0, |w[Last(path)].parents| - i
  {
    WayBound(w, path);
    var ps := w[Last(path)].parents;
    if i == |ps| then seen
    else
      WaySnoc(w, path, ps[i]);
      WayBound(w, path + [ps[i]]);
      Post(w, path + [ps[i]], PostAll(w, path, i + 1, seen))
  }

  /** The object at k is there, has not come before, and all its parents have. */
  ghost predicate PlaceAt(w: World, s: seq<int>, k: int) {
    0 <= k < |s| ==>
      s[k] in w && s[k] !in s[..k] && forall p :: p in w[s[k]].parents && p in w ==> p in s[..k]
  }

  ghost predicate Ordered(w: World, s: seq<int>) { forall k {:trigger PlaceAt(w, s, k)} :: PlaceAt(w, s, k) }

  lemma OrderedMore(w: World, s: seq<int>, o: int)
    requires Ordered(w, s) && o in w && o !in s && forall p :: p in w[o].parents && p in w ==> p in s
    ensures Ordered(w, s + [o])
  {
    var t := s + [o];
    forall k ensures PlaceAt(w, t, k) {
      assert PlaceAt(w, s, k);
      if 0 <= k < |s| { assert t[..k] == s[..k]; } else if k == |s| { assert t[..k] == s; }
    }
  }

  ghost predicate AboveAt(w: World, o: int, s: seq<int>, k: int) { 0 <= k < |s| ==> Above(w, o, s[k]) }

  ghost predicate FromAt(w: World, o: int, s: seq<int>, k: int) { 0 <= k < |s| ==> Reaches(w, o, s[k]) }

  /** What a search adds lies above where it starts, and is in order. */
  lemma {:induction false} PostOrdered(w: World, path: seq<int>, seen: seq<int>)
    requires Acyclic(w) && Way(w, path) && Ordered(w, seen)
    ensures var r := Post(w, path, seen);
            && seen <= r && Ordered(w, r) && (Last(path) in w ==> Last(path) in r)
            && forall k {:trigger FromAt(w, Last(path), r, k)} :: k >= |seen| ==> FromAt(w, Last(path), r, k)
    decreases |w| + 1 - |path|, 1, 0
  {
    var o, r := Last(path), Post(w, path, seen);
    WayBound(w, path);
    if o !in seen && o in w {
      PostAllOrdered(w, path, 0, seen);
      var s := PostAll(w, path, 0, seen);
      assert o !in s by {
        if o in s {
          var k :| 0 <= k < |s| && s[k] == o;
          assert AboveAt(w, o, s, k);
          NotAbove(w, o);
          assert false;
        }
      }
      OrderedMore(w, s, o);
      WaySelf(w, o);
      forall k | k >= |seen| ensures FromAt(w, o, r, k) {
        assert AboveAt(w, o, s, k);
        if k < |s| { AboveReaches(w, o, s[k]); }
      }
    }
  }

  lemma NotAbove(w: World, o: int)
    requires Acyclic(w)
    ensures !Above(w, o, o)
  {
  }

  lemma AboveReaches(w: World, a: int, b: int)
    requires Above(w, a, b)
    ensures Reaches(w, a, b)
  {
  }

  lemma {:induction false} PostAllOrdered(w: World, path: seq<int>, i: nat, seen: seq<int>)
    requires Acyclic(w) && Way(w, path) && Last(path) in w && i <= |w[Last(path)].parents| && Ordered(w, seen)
    ensures var o, r := Last(path), PostAll(w, path, i, seen);
            && seen <= r && Ordered(w, r)
            && (forall j :: i <= j < |w[o].parents| && w[o].parents[j] in w ==> w[o].parents[j] in r)
            && forall k {:trigger AboveAt(w, o, r, k)} :: k >= |seen| ==> AboveAt(w, o, r, k)
    decreases |w| + 1 - |path|, 0, |w[Last(path)].parents| - i
  {
    var o := Last(path);
    var ps := w[o].parents;
    WayBound(w, path);
    if i < |ps| {
      var c, s := ps[i], PostAll(w, path, i + 1, seen);
      PostAllOrdered(w, path, i + 1, seen);
      WaySnoc(w, path, c);
      WayBound(w, path + [c]);
      PostOrdered(w, path + [c], s);
      var r := PostAll(w, path, i, seen);
      forall k | k >= |seen| ensures AboveAt(w, o, r, k) {
        assert AboveAt(w, o, s, k);
        if |s| <= k < |r| {
          assert FromAt(w, c, r, k);
          AboveThrough(w, o, c, r[k]);
        }
      }
    }
  }

  // ---------------------------------------------------------------- what the order means

  lemma {:induction false} ClosedUp(w: World, s: seq<int>, k: nat, b: int)
    requires Ordered(w, s) && k < |s| && Above(w, s[k], b) && b in w
    ensures b in s[..k]
    decreases k
  {
    var c := AboveFirst(w, s[k], b);
    assert PlaceAt(w, s, k);
    if b != c {
      ThereToo(w, c, b);
      var j :| 0 <= j < k && s[j] == c;
      ReachesAbove(w, c, b);
      ClosedUp(w, s, j, b);
    }
  }

  lemma ReachesAbove(w: World, a: int, b: int)
    requires Reaches(w, a, b) && a != b
    ensures Above(w, a, b)
  {
    var p :| Leads(w, p, a, b);
  }

  lemma ThereToo(w: World, a: int, b: int)
    requires Reaches(w, a, b) && a != b
    ensures a in w
  {
    var p :| Leads(w, p, a, b);
    assert StepAt(w, p, 0);
  }

  /** The order of a search from o. */
  ghost function Order(w: World, o: int): seq<int>
    requires Acyclic(w)
  {
    WaySelf(w, o);
    Post(w, [o], [])
  }

  /** A search goes through o and all its ancestors that are there, once each, an object's ancestors before
      the object. */
  lemma OrderIs(w: World, o: int)
    requires Acyclic(w)
    ensures forall x :: x in Order(w, o) <==> x in w && Reaches(w, o, x)
    ensures Ordered(w, Order(w, o))
  {
    WaySelf(w, o);
    forall k ensures PlaceAt(w, [], k) { }
    PostOrdered(w, [o], []);
    var s := Order(w, o);
    forall x ensures x in s <==> x in w && Reaches(w, o, x) {
      if x in s {
        var k :| 0 <= k < |s| && s[k] == x;
        assert FromAt(w, o, s, k) && PlaceAt(w, s, k);
      }
      if x in w && Reaches(w, o, x) && x != o {
        ThereToo(w, o, x);
        ReachesAbove(w, o, x);
        var k :| 0 <= k < |s| && s[k] == o;
        ClosedUp(w, s, k, x);
      }
    }
  }

  // ---------------------------------------------------------------- the choice

  /** The definition of name on o itself: whether it is blocked. */
  function Definition(w: World, name: string, o: int): Option<bool> {
    if o in w && name in w[o].methods then Some(w[o].methods[name]) else None
  }

  predicate Defines(w: World, name: string, o: int) { Definition(w, name, o).Some? }

  predicate Blocks(w: World, name: string, o: int) { Definition(w, name, o) == Some(true) }

  /** The first blocked definition, else the last definition. */
  function Pick(w: World, name: string, s: seq<int>): Option<int> {
    if s == [] then None
    else
      var r, o := Pick(w, name, s[..|s| - 1]), Last(s);
      if r.Some? && Blocks(w, name, r.value) then r else if Defines(w, name, o) then Some(o) else r
  }

  lemma {:induction false} PickIs(w: World, name: string, s: seq<int>)
    ensures Pick(w, name, s).None? <==> forall x :: x in s ==> !Defines(w, name, x)
    ensures match Pick(w, name, s)
            case None => true
            case Some(r) =>
              && r in s && Defines(w, name, r)
              && (Blocks(w, name, r) <==> exists x :: x in s && Blocks(w, name, x))
    decreases |s|
  {
    if s != [] {
      PickIs(w, name, s[..|s| - 1]);
      assert forall x :: x in s <==> x in s[..|s| - 1] || x == Last(s);
    }
  }

  /** A definition that is picked and is not blocked comes after all the others. */
  lemma {:induction false} PickLast(w: World, name: string, s: seq<int>, k: nat)
    requires k < |s| && Defines(w, name, s[k]) && Pick(w, name, s).Some? && !Blocks(w, name, Pick(w, name, s).value)
    ensures Pick(w, name, s).value == s[k] || Pick(w, name, s).value in s[k..]
    decreases |s|
  {
    var n := |s| - 1;
    if Defines(w, name, Last(s)) {
      assert s[k..][n - k] == Last(s);
    } else {
      PickLast(w, name, s[..n], k);
      assert forall x :: x in s[..n][k..] ==> x in s[k..];
    }
  }

  /** A blocked definition that is picked comes before all other blocked ones. */
  lemma {:induction false} PickFirst(w: World, name: string, s: seq<int>, k: nat)
    requires k < |s| && Blocks(w, name, s[k])
    ensures Pick(w, name, s).Some? && Blocks(w, name, Pick(w, name, s).value) && Pick(w, name, s).value in s[..k + 1]
    decreases |s|
  {
    var n := |s| - 1;
    if k < n {
      PickFirst(w, name, s[..n], k);
      assert s[..n][..k + 1] == s[..k + 1];
    } else {
      PickIs(w, name, s[..n]);
      assert s[..k + 1] == s;
      assert forall x :: x in s[..n] ==> x in s;
    }
  }

  // ---------------------------------------------------------------- the main results

  /** Nothing is found exactly when neither o nor any ancestor defines the name. */
  lemma FoundIff(w: World, name: string, o: int)
    requires Acyclic(w)
    ensures Pick(w, name, Order(w, o)).None? <==> forall x :: Reaches(w, o, x) ==> !Defines(w, name, x)
  {
    OrderIs(w, o);
    PickIs(w, name, Order(w, o));
  }

  /** What is found is blocked exactly when there is any blocked definition to find. */
  lemma BlockedIff(w: World, name: string, o: int)
    requires Acyclic(w)
    ensures var r := Pick(w, name, Order(w, o));
            r.Some? && Blocks(w, name, r.value) <==> exists x :: Reaches(w, o, x) && Blocks(w, name, x)
  {
    var s := Order(w, o);
    OrderIs(w, o);
    PickIs(w, name, s);
    if x :| Reaches(w, o, x) && Blocks(w, name, x) {
      var k :| 0 <= k < |s| && s[k] == x;
      PickFirst(w, name, s, k);
    }
  }

  /** A definition that is found and is not blocked is nearest: no other definition lies below it. */
  lemma FoundNearest(w: World, name: string, o: int, d: int)
    requires Acyclic(w) && Reaches(w, o, d) && Defines(w, name, d)
    ensures var r := Pick(w, name, Order(w, o));
            && r.Some?
            && (!Blocks(w, name, r.value) ==> !Above(w, d, r.value))
            && (Blocks(w, name, r.value) && Blocks(w, name, d) ==> !Above(w, r.value, d))
  {
    var s := Order(w, o);
    OrderIs(w, o);
    PickIs(w, name, s);
    var r := Pick(w, name, s).value;
    var k :| 0 <= k < |s| && s[k] == d;
    if !Blocks(w, name, r) && Above(w, d, r) {
      PickLast(w, name, s, k);
      ClosedUp(w, s, k, r);
      Twice(w, s, k, r);
      assert false;
    }
    if Blocks(w, name, r) && Blocks(w, name, d) && Above(w, r, d) {
      PickFirst(w, name, s, k);
      var j :| 0 <= j < k + 1 && s[j] == r;
      ClosedUp(w, s, j, d);
      Twice(w, s, j, d);
      assert false;
    }
  }

  lemma Twice(w: World, s: seq<int>, k: nat, r: int)
    requires Ordered(w, s) && k <= |s| && r in s[..k]
    ensures r !in s[k..]
  {
    var i :| 0 <= i < k && s[i] == r;
    forall j | k <= j < |s| ensures s[j] != r { Distinct(w, s, i, j); }
  }

  lemma Distinct(w: World, s: seq<int>, i: nat, j: nat)
    requires Ordered(w, s) && i < j < |s|
    ensures s[i] != s[j]
  {
    assert PlaceAt(w, s, j) && s[..j][i] == s[i];
  }

  // ---------------------------------------------------------------- left to right

  /** x is one of the parents l and after, but before u, or reached from one. */
  ghost predicate FromParent(w: World, ps: seq<int>, l: int, u: int, x: int) {
    exists j :: 0 <= l <= j < u <= |ps| && Reaches(w, ps[j], x)
  }

  ghost predicate FromParentAt(w: World, ps: seq<int>, l: int, u: int, s: seq<int>, k: int) {
    0 <= k < |s| ==> FromParent(w, ps, l, u, s[k])
  }

  /** What is searched from the parents l to u on comes after what is searched from those right of them. */
  lemma {:induction false} Segment(w: World, path: seq<int>, l: nat, u: nat)
    requires Acyclic(w) && Way(w, path) && Last(path) in w && l <= u <= |w[Last(path)].parents|
    ensures var ps, s, r := w[Last(path)].parents, PostAll(w, path, u, []), PostAll(w, path, l, []);
            && s <= r && forall k {:trigger FromParentAt(w, ps, l, u, r, k)} :: k >= |s| ==> FromParentAt(w, ps, l, u, r, k)
    decreases u - l
  {
    var ps, s, r := w[Last(path)].parents, PostAll(w, path, u, []), PostAll(w, path, l, []);
    if l < u {
      Segment(w, path, l + 1, u);
      var t := PostAll(w, path, l + 1, []);
      forall k ensures PlaceAt(w, [], k) { }
      PostAllOrdered(w, path, l + 1, []);
      WaySnoc(w, path, ps[l]);
      PostOrdered(w, path + [ps[l]], t);
      forall k | k >= |s| ensures FromParentAt(w, ps, l, u, r, k) {
        assert FromParentAt(w, ps, l + 1, u, t, k);
        if |t| <= k < |r| { assert FromAt(w, ps[l], r, k); }
      }
    }
  }

  /** What is reached from parent i has been searched once parent i has. */
  lemma SearchedBy(w: World, path: seq<int>, i: nat, d: int)
    requires Acyclic(w) && Way(w, path) && Last(path) in w && i < |w[Last(path)].parents| && d in w
    requires Reaches(w, w[Last(path)].parents[i], d)
    ensures d in PostAll(w, path, i, [])
  {
    var c, r := w[Last(path)].parents[i], PostAll(w, path, i, []);
    forall k ensures PlaceAt(w, [], k) { }
    PostAllOrdered(w, path, i, []);
    if c != d {
      ThereToo(w, c, d);
      ReachesAbove(w, c, d);
      var k :| 0 <= k < |r| && r[k] == c;
      ClosedUp(w, r, k, d);
    }
  }

  lemma OrderEnds(w: World, o: int)
    requires Acyclic(w) && o in w
    ensures Way(w, [o]) && Order(w, o) == PostAll(w, [o], 0, []) + [o]
  {
    WaySelf(w, o);
  }

  /** Branches go from left to right: when parent i of o leads to a definition and none right of it does, a definition
      that is found and is not blocked is that of o, or lies on a branch at or left of i. */
  lemma LeftBranchWins(w: World, name: string, o: int, i: nat, d: int)
    requires Acyclic(w) && o in w && i < |w[o].parents| && Reaches(w, w[o].parents[i], d) && Defines(w, name, d)
    requires forall j :: i < j < |w[o].parents| ==> !Reaches(w, w[o].parents[j], d)
    ensures var r := Pick(w, name, Order(w, o));
            r.Some? && (!Blocks(w, name, r.value) ==> r.value == o || FromParent(w, w[o].parents, 0, i + 1, r.value))
  {
    var ps, n := w[o].parents, |w[o].parents|;
    OrderEnds(w, o);
    var s, right, all := Order(w, o), PostAll(w, [o], i + 1, []), PostAll(w, [o], 0, []);
    SearchedBy(w, [o], i, d);
    Segment(w, [o], 0, i);
    Segment(w, [o], 0, i + 1);
    Segment(w, [o], i + 1, n);
    var k :| 0 <= k < |all| && all[k] == d;
    forall m | 0 <= m < |right| ensures right[m] != d { assert FromParentAt(w, ps, i + 1, n, right, m); }
    assert k >= |right| && s[k] == d;
    PickIs(w, name, s);
    var r := Pick(w, name, s);
    if !Blocks(w, name, r.value) && r.value != o {
      PickLast(w, name, s, k);
      var m :| k <= m < |s| && s[m] == r.value;
      assert FromParentAt(w, ps, 0, i + 1, all, m);
    }
  }

  /** Blocked definitions are looked for from right to left: when parent i of o leads to one, the one found lies on a
      branch at or right of i. */
  lemma RightBranchBlocks(w: World, name: string, o: int, i: nat, d: int)
    requires Acyclic(w) && o in w && i < |w[o].parents| && Reaches(w, w[o].parents[i], d) && Blocks(w, name, d)
    ensures var r := Pick(w, name, Order(w, o));
            r.Some? && Blocks(w, name, r.value) && FromParent(w, w[o].parents, i, |w[o].parents|, r.value)
  {
    var ps, n := w[o].parents, |w[o].parents|;
    OrderEnds(w, o);
    var s, part := Order(w, o), PostAll(w, [o], i, []);
    SearchedBy(w, [o], i, d);
    Segment(w, [o], 0, i);
    Segment(w, [o], i, n);
    var k :| 0 <= k < |part| && part[k] == d;
    assert s[k] == d;
    PickFirst(w, name, s, k);
    var m :| 0 <= m < k + 1 && s[m] == Pick(w, name, s).value;
    assert FromParentAt(w, ps, i, n, part, m) && part[m] == s[m];
  }

  /** How the search came to an object does not matter. */
  lemma {:induction false} SameFrom(w: World, p: seq<int>, q: seq<int>, seen: seq<int>)
    requires Acyclic(w) && Way(w, p) && Way(w, q) && Last(p) == Last(q)
    ensures Post(w, p, seen) == Post(w, q, seen)
    decreases |w| + 1 - |p|, 1, 0
  {
    WayBound(w, p);
    if Last(p) !in seen && Last(p) in w { SameFromParents(w, p, q, 0, seen); }
  }

  lemma {:induction false} SameFromParents(w: World, p: seq<int>, q: seq<int>, i: nat, seen: seq<int>)
    requires Acyclic(w) && Way(w, p) && Way(w, q) && Last(p) == Last(q) && Last(p) in w && i <= |w[Last(p)].parents|
    ensures PostAll(w, p, i, seen) == PostAll(w, q, i, seen)
    decreases |w| + 1 - |p|, 0, |w[Last(p)].parents| - i
  {
    var ps := w[Last(p)].parents;
    WayBound(w, p);
    if i < |ps| {
      SameFromParents(w, p, q, i + 1, seen);
      WaySnoc(w, p, ps[i]);
      WaySnoc(w, q, ps[i]);
      WayBound(w, p + [ps[i]]);
      SameFrom(w, p + [ps[i]], q + [ps[i]], PostAll(w, p, i + 1, seen));
    }
  }

  /** An object with one parent and no definition of its own has the one that its parent has. */
  lemma Inherits(w: World, name: string, o: int)
    requires Acyclic(w) && o in w && |w[o].parents| == 1 && !Defines(w, name, o)
    ensures Pick(w, name, Order(w, o)) == Pick(w, name, Order(w, w[o].parents[0]))
  {
    var p := w[o].parents[0];
    OrderEnds(w, o);
    WaySelf(w, p);
    WaySnoc(w, [o], p);
    SameFrom(w, [o] + [p], [p], []);
    assert PostAll(w, [o], 1, []) == [];
    var s := PostAll(w, [o], 0, []);
    assert s == Order(w, p) && (s + [o])[..|s|] == s && Last(s + [o]) == o;
  }
}

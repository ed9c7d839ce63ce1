/** The objects and their parents: ways upwards, and hierarchies without cycles. */
module Hierarchy {
  /** An object: its parents from left to right, and its methods by name, blocked or not. */
  datatype Obj = Obj(parents: seq<int>, methods: map<string, bool>)

  type World = map<int, Obj>

  ghost predicate StepAt(w: World, p: seq<int>, i: int) {
    0 <= i < |p| - 1 ==> p[i] in w && p[i + 1] in w[p[i]].parents
  }

  /** Each object but the last is there and has the next one as a parent. */
  ghost predicate Way(w: World, p: seq<int>) {
    |p| > 0 && forall i {:trigger StepAt(w, p, i)} :: StepAt(w, p, i)
  }

  ghost predicate Leads(w: World, p: seq<int>, a: int, b: int) { Way(w, p) && p[0] == a && p[|p| - 1] == b }

  /** b is a or an ancestor of a. */
  ghost predicate Reaches(w: World, a: int, b: int) { exists p {:trigger Leads(w, p, a, b)} :: Leads(w, p, a, b) }

  /** b is an ancestor of a. */
  ghost predicate Above(w: World, a: int, b: int) {
    exists p {:trigger Leads(w, p, a, b)} :: Leads(w, p, a, b) && |p| > 1
  }

  /** No object is its own ancestor. */
  ghost predicate Acyclic(w: World) { forall p {:trigger Way(w, p)} :: Way(w, p) && |p| > 1 ==> p[0] != p[|p| - 1] }

  lemma WayPart(w: World, p: seq<int>, i: nat, j: nat)
    requires Way(w, p) && i < j <= |p|
    ensures Way(w, p[i..j])
  {
    var q := p[i..j];
    forall k ensures StepAt(w, q, k) { assert StepAt(w, p, i + k); }
  }

  lemma WayJoin(w: World, p: seq<int>, q: seq<int>)
    requires Way(w, p) && Way(w, q) && p[|p| - 1] == q[0]
    ensures Way(w, p + q[1..]) && (p + q[1..])[0] == p[0] && (p + q[1..])[|p| + |q| - 2] == q[|q| - 1]
  {
    var r := p + q[1..];
    forall k ensures StepAt(w, r, k) {
      assert StepAt(w, p, k) && StepAt(w, q, k - |p| + 1);
    }
  }

  lemma WayStep(w: World, a: int, b: int)
    requires a in w && b in w[a].parents
    ensures Leads(w, [a, b], a, b) && Reaches(w, a, b) && Above(w, a, b)
  {
    forall k ensures StepAt(w, [a, b], k) { }
    assert Leads(w, [a, b], a, b);
  }

  lemma WaySelf(w: World, a: int)
    ensures Leads(w, [a], a, a) && Reaches(w, a, a)
  {
    forall k ensures StepAt(w, [a], k) { }
    assert Leads(w, [a], a, a);
  }

  lemma WaySnoc(w: World, p: seq<int>, b: int)
    requires Way(w, p) && p[|p| - 1] in w && b in w[p[|p| - 1]].parents
    ensures Way(w, p + [b])
  {
    var r := p + [b];
    forall k ensures StepAt(w, r, k) { assert StepAt(w, p, k); }
  }

  /** An ancestor is a parent or an ancestor of a parent. */
  lemma AboveFirst(w: World, a: int, b: int) returns (c: int)
    requires Above(w, a, b)
    ensures a in w && c in w[a].parents && Reaches(w, c, b)
  {
    var p :| Leads(w, p, a, b) && |p| > 1;
    assert StepAt(w, p, 0);
    c := p[1];
    WayPart(w, p, 1, |p|);
    assert Leads(w, p[1..|p|], c, b);
  }

  lemma AboveThrough(w: World, a: int, c: int, b: int)
    requires a in w && c in w[a].parents && Reaches(w, c, b)
    ensures Above(w, a, b)
  {
    var q :| Leads(w, q, c, b);
    WayStep(w, a, c);
    WayJoin(w, [a, c], q);
    assert Leads(w, [a, c] + q[1..], a, b);
  }

  // ---------------------------------------------------------------- how long a way can be

  lemma WayDistinct(w: World, p: seq<int>, i: nat, j: nat)
    requires Acyclic(w) && Way(w, p) && i < j < |p|
    ensures p[i] != p[j]
  {
    WayPart(w, p, i, j + 1);
    assert p[i..j + 1][0] == p[i] && p[i..j + 1][j - i] == p[j];
  }

  lemma {:induction false} DistinctSize(p: seq<int>, s: set<int>)
    requires (forall i, j :: 0 <= i < j < |p| ==> p[i] != p[j]) && forall i :: 0 <= i < |p| ==> p[i] in s
    ensures |p| <= |s|
    decreases |p|
  {
    if p != [] {
      var x, q := p[|p| - 1], p[..|p| - 1];
      DistinctSize(q, s - {x});
    }
  }

  /** Without cycles no way has more than one object more than there are. */
  lemma WayBound(w: World, p: seq<int>)
    requires Acyclic(w) && Way(w, p)
    ensures |p| <= |w| + 1 && (p[|p| - 1] in w ==> |p| <= |w|)
  {
    forall i, j | 0 <= i < j < |p| ensures p[i] != p[j] { WayDistinct(w, p, i, j); }
    forall i | 0 <= i < |p| - 1 ensures p[i] in w.Keys { assert StepAt(w, p, i); }
    var q := p[..|p| - 1];
    DistinctSize(q, w.Keys);
    if p[|p| - 1] in w { DistinctSize(p, w.Keys); }
  }
}

/** Giving an object new parents (src/src/utils.c:41-95): what the check before it lets through. */
module Parents {
  import opened Wrappers
  import opened Hierarchy
  import opened MethodSearch

  datatype Objid = Objid(id: int, server: int)

  datatype Verdict = Fine | Range | Invind | Objnf | Maxrec | Perm

  const ROOT_OBJ := 1  // the one object that may be without parents

  lemma AboveParent(w: World, o: int, pid: int)
    ensures Above(w, o, pid) <==> o in w && exists c :: c in w[o].parents && (c == pid || Above(w, c, pid))
  {
    if Above(w, o, pid) {
      var c := AboveFirst(w, o, pid);
      if c != pid { ReachesAbove(w, c, pid); }
    }
    if o in w {
      forall c | c in w[o].parents && (c == pid || Above(w, c, pid)) ensures Above(w, o, pid) {
        if c == pid { WayStep(w, o, c); } else { AboveReaches(w, c, pid); AboveThrough(w, o, c, pid); }
      }
    }
  }

  /** hasparent: whether pid is an ancestor of o. */
  method HasParent(w: World, o: int, pid: int, ghost path: seq<int>) returns (r: bool)
    requires Acyclic(w) && Way(w, path) && Last(path) == o && o in w
    ensures r <==> Above(w, o, pid)
    decreases |w| + 1 - |path|
  {
    WayBound(w, path);
    AboveParent(w, o, pid);
    var parents := w[o].parents;
    var i := 0;
    while i < |parents|
      invariant i <= |parents| && forall j :: 0 <= j < i ==> parents[j] != pid && !Above(w, parents[j], pid)
    {
      if parents[i] == pid {
        assert parents[i] in w[o].parents;
        return true;
      }
      if parents[i] in w {
        WaySnoc(w, path, parents[i]);
        var above := HasParent(w, parents[i], pid, path + [parents[i]]);
        if above { return true; }
      } else {
        AboveParent(w, parents[i], pid);
      }
      i := i + 1;
    }
    return false;
  }

  /** One of the new parents by itself. */
  function Single(w: World, o: int, p: Objid, clonable: set<int>): Verdict {
    if p.server != 0 then Invind else if p.id !in w then Objnf else if p.id == o then Maxrec
    else if p.id !in clonable then Perm else Fine
  }

  ghost predicate Tangled(w: World, p: int, parents: seq<Objid>) {
    exists j :: 0 <= j < |parents| && Above(w, p, parents[j].id)
  }

  /** What check_parents allows: at least one parent unless o is the root, and parents that are here, other
      objects, open to cloning, and not above one another. */
  ghost predicate Allowed(w: World, o: int, parents: seq<Objid>, clonable: set<int>) {
    && (parents == [] ==> o == ROOT_OBJ)
    && forall i :: 0 <= i < |parents| ==>
         var p := parents[i];
         p.server == 0 && p.id in w && p.id != o && p.id in clonable && !Tangled(w, p.id, parents)
  }

  /** What is wrong with the first bad parent from i on. */
  ghost function FirstVerdict(w: World, o: int, parents: seq<Objid>, clonable: set<int>, i: nat): Verdict
    requires i <= |parents|
    decreases |parents| - i
  {
    if i == |parents| then Fine
    else if Single(w, o, parents[i], clonable) != Fine then Single(w, o, parents[i], clonable)
    else if Tangled(w, parents[i].id, parents) then Maxrec
    else FirstVerdict(w, o, parents, clonable, i + 1)
  }

  /** check_parents. */
  method CheckParents(w: World, o: int, parents: seq<Objid>, clonable: set<int>) returns (v: Verdict)
    requires Acyclic(w)
    ensures v == Fine <==> Allowed(w, o, parents, clonable)
    ensures v == if parents == [] && o != ROOT_OBJ then Range else FirstVerdict(w, o, parents, clonable, 0)
  {
    if |parents| == 0 && o != ROOT_OBJ {
      return Range;
    }
    var i := 0;
    while i < |parents|
      invariant i <= |parents| && FirstVerdict(w, o, parents, clonable, 0) == FirstVerdict(w, o, parents, clonable, i)
      invariant forall k :: 0 <= k < i ==> Single(w, o, parents[k], clonable) == Fine && !Tangled(w, parents[k].id, parents)
    {
      var p := parents[i];
      if p.server != 0 { return Invind; }
      if p.id !in w { return Objnf; }
      if p.id == o { return Maxrec; }
      if p.id !in clonable { return Perm; }
      WaySelf(w, p.id);
      var j := 0;
      while j < |parents|
        invariant j <= |parents| && forall k :: 0 <= k < j ==> !Above(w, p.id, parents[k].id)
      {
        var above := HasParent(w, p.id, parents[j].id, [p.id]);
        if above { return Maxrec; }
        j := j + 1;
      }
      i := i + 1;
    }
    return Fine;
  }

  /** Why a new parent is refused: it lives elsewhere, is not there, is the object itself, may not be cloned, or is below
      another one. */
  ghost predicate Because(w: World, o: int, parents: seq<Objid>, clonable: set<int>, p: Objid, v: Verdict) {
    match v
    case Invind => p.server != 0
    case Objnf => p.server == 0 && p.id !in w
    case Maxrec => p.server == 0 && p.id in w && (p.id == o || (p.id in clonable && Tangled(w, p.id, parents)))
    case Perm => p.server == 0 && p.id in w && p.id != o && p.id !in clonable
    case Fine => p.server == 0 && p.id in w && p.id != o && p.id in clonable && !Tangled(w, p.id, parents)
    case Range => false
  }

  /** The verdict is that on the first new parent that is refused; it is Fine when none is. */
  lemma {:induction false} VerdictIs(w: World, o: int, parents: seq<Objid>, clonable: set<int>, i: nat) returns (k: nat)
    requires i <= |parents|
    ensures i <= k <= |parents| && forall j :: i <= j < k ==> Because(w, o, parents, clonable, parents[j], Fine)
    ensures var v := FirstVerdict(w, o, parents, clonable, i);
            if k == |parents| then v == Fine else v != Fine && Because(w, o, parents, clonable, parents[k], v)
    decreases |parents| - i
  {
    k := i;
    if i < |parents| && Because(w, o, parents, clonable, parents[i], Fine) {
      k := VerdictIs(w, o, parents, clonable, i + 1);
    }
  }

  // ---------------------------------------------------------------- what the check leaves open

  function Ids(parents: seq<Objid>): (r: seq<int>)
    ensures |r| == |parents| && forall i :: 0 <= i < |r| ==> r[i] == parents[i].id
  {
    seq(|parents|, i requires 0 <= i < |parents| => parents[i].id)
  }

  /** The objects after o has been given its new parents. */
  function Reparented(w: World, o: int, parents: seq<Objid>): World
    requires o in w
  {
    w[o := Obj(Ids(parents), w[o].methods)]
  }

  /** A way that does not pass through o before its end is the same whatever o's parents. */
  lemma SameWay(w: World, w': World, o: int, p: seq<int>)
    requires Way(w, p) && forall i :: 0 <= i < |p| - 1 ==> p[i] != o
    requires forall x :: x != o ==> (x in w <==> x in w') && (x in w ==> w[x] == w'[x])
    ensures Way(w', p)
  {
    forall i ensures StepAt(w', p, i) { assert StepAt(w, p, i); }
  }

  /** The part of a way up to where it first comes to o. */
  lemma FirstVisit(w: World, p: seq<int>, o: int) returns (k: nat)
    requires Way(w, p) && o in p
    ensures k < |p| && p[k] == o && Way(w, p[..k + 1]) && forall i :: 0 <= i < k ==> p[i] != o
  {
    k := 0;
    while p[k] != o
      invariant k < |p| && o in p[k..] && forall i :: 0 <= i < k ==> p[i] != o
      decreases |p| - k
    {
      assert p[k..][1..] == p[k + 1..];
      k := k + 1;
    }
    WayPart(w, p, 0, k + 1);
    assert p[0..k + 1] == p[..k + 1];
  }

  lemma SameOthers(w: World, o: int, parents: seq<Objid>)
    requires o in w
    ensures forall x :: x != o ==> (x in w <==> x in Reparented(w, o, parents)) && (x in w ==> w[x] == Reparented(w, o, parents)[x])
  {
  }

  /** A way from a to o exists with the new parents exactly when it did with the old ones. */
  lemma ReachesSame(w: World, w': World, o: int, a: int)
    requires forall x :: x != o ==> (x in w <==> x in w') && (x in w ==> w[x] == w'[x])
    requires Reaches(w, a, o)
    ensures Reaches(w', a, o)
  {
    var p :| Leads(w, p, a, o);
    var k := FirstVisit(w, p, o);
    SameWay(w, w', o, p[..k + 1]);
    assert Leads(w', p[..k + 1], a, o);
  }

  /** New parents keep the hierarchy free of cycles exactly when o is not among them or their ancestors. */
  lemma AcyclicIff(w: World, o: int, parents: seq<Objid>)
    requires Acyclic(w) && o in w
    ensures Acyclic(Reparented(w, o, parents)) <==> forall i :: 0 <= i < |parents| ==> !Reaches(w, parents[i].id, o)
  {
    var w' := Reparented(w, o, parents);
    SameOthers(w, o, parents);
    if i :| 0 <= i < |parents| && Reaches(w, parents[i].id, o) {
      ReachesSame(w, w', o, parents[i].id);
      assert parents[i].id == w'[o].parents[i];
      AboveThrough(w', o, parents[i].id, o);
      var p :| Leads(w', p, o, o) && |p| > 1;
      assert Way(w', p);
    } else {
      forall p {:trigger Way(w', p)} | Way(w', p) && |p| > 1 ensures p[0] != p[|p| - 1] {
        if p[0] == p[|p| - 1] {
          CycleThrough(w, w', o, p);
          var c := AboveFirst(w', o, o);
          ReachesSame(w', w, o, c);
          assert false;
        }
      }
    }
  }

  /** After the check it is exactly whether o is an ancestor of a new parent that decides. */
  lemma CheckedIff(w: World, o: int, parents: seq<Objid>, clonable: set<int>)
    requires Acyclic(w) && o in w && Allowed(w, o, parents, clonable)
    ensures Acyclic(Reparented(w, o, parents)) <==> forall i :: 0 <= i < |parents| ==> !Above(w, parents[i].id, o)
  {
    AcyclicIff(w, o, parents);
    forall i | 0 <= i < |parents| ensures Above(w, parents[i].id, o) <==> Reaches(w, parents[i].id, o) {
      if Above(w, parents[i].id, o) { AboveReaches(w, parents[i].id, o); }
      if Reaches(w, parents[i].id, o) { ReachesAbove(w, parents[i].id, o); }
    }
  }

  /** A new cycle passes through o. */
  lemma CycleThrough(w: World, w': World, o: int, p: seq<int>)
    requires Acyclic(w) && Way(w', p) && |p| > 1 && p[0] == p[|p| - 1]
    requires forall x :: x != o ==> (x in w <==> x in w') && (x in w ==> w[x] == w'[x])
    ensures Above(w', o, o)
  {
    if o in p {
      var k :| 0 <= k < |p| && p[k] == o;
      if k == 0 {
        assert Leads(w', p, o, o);
      } else {
        WayPart(w', p, k, |p|);
        WayPart(w', p, 0, k + 1);
        var q, r := p[k..|p|], p[0..k + 1];
        WayJoin(w', q, r);
        assert Leads(w', q + r[1..], o, o);
      }
    } else {
      SameWay(w', w, o, p);
      assert false;
    }
  }

  /** check_parents never asks whether o is above a new parent: with 2 a child of 1 and 3 a child of 2, it lets 2
      become a child of 3. */
  lemma CheckMissesCycle()
    ensures var w: World := map[ROOT_OBJ := Obj([], map[]), 2 := Obj([ROOT_OBJ], map[]), 3 := Obj([2], map[])];
            && Acyclic(w) && Allowed(w, 2, [Objid(3, 0)], {3}) && !Acyclic(Reparented(w, 2, [Objid(3, 0)]))
  {
    var w: World := map[ROOT_OBJ := Obj([], map[]), 2 := Obj([ROOT_OBJ], map[]), 3 := Obj([2], map[])];
    forall p {:trigger Way(w, p)} | Way(w, p) && |p| > 1 ensures p[0] != p[|p| - 1] {
      assert StepAt(w, p, 0) && StepAt(w, p, 1) && StepAt(w, p, 2);
      assert p[1] == p[0] - 1 && |p| <= 3;
    }
    AboveParent(w, ROOT_OBJ, 3);
    AboveParent(w, 2, 3);
    AboveParent(w, 3, 3);
    WayStep(w, 3, 2);
    AcyclicIff(w, 2, [Objid(3, 0)]);
    assert [Objid(3, 0)][0].id == 3;
  }
}

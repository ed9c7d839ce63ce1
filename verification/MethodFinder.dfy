/** find_method_recursive and do_fmr as they run: every object carries the number of the last search that
    looked at it. */
module MethodFinder {
  import opened Wrappers
  import opened Hierarchy
  import opened MethodSearch

  lemma {:induction false} PickPrefix(w: World, name: string, s: seq<int>, t: seq<int>)
    requires s <= t && Pick(w, name, s).Some? && Blocks(w, name, Pick(w, name, s).value)
    ensures Pick(w, name, t) == Pick(w, name, s)
    decreases |t|
  {
    if |s| < |t| { PickPrefix(w, name, s, t[..|t| - 1]); } else { assert s == t; }
  }

  lemma {:induction false} PostAllGrows(w: World, path: seq<int>, i: nat, j: nat, seen: seq<int>)
    requires Acyclic(w) && Way(w, path) && Last(path) in w && i <= j <= |w[Last(path)].parents| && Ordered(w, seen)
    ensures PostAll(w, path, j, seen) <= PostAll(w, path, i, seen)
    decreases j - i
  {
    if i < j {
      PostAllGrows(w, path, i + 1, j, seen);
      PostAllOrdered(w, path, i + 1, seen);
      WaySnoc(w, path, w[Last(path)].parents[i]);
      PostOrdered(w, path + [w[Last(path)].parents[i]], PostAll(w, path, i + 1, seen));
    }
  }

  class Finder {
    const world: World
    var searchGen: nat
    var lastSearch: map<int, int>
    var found: Option<int>
    var foundBlocked: bool
    ghost var examined: seq<int>

    constructor (world: World)
      ensures Valid() && this.world == world
    {
      this.world := world;
      searchGen, lastSearch, found, foundBlocked := 0, map o | o in world :: -1, None, false;
      examined := [];
    }

    /** The marks of earlier searches are older. */
    ghost predicate Valid()
      reads this
    {
      lastSearch.Keys == world.Keys && forall o :: o in lastSearch ==> lastSearch[o] <= searchGen
    }

    /** In a search for name, what has been examined is marked and what has been found is right so far. */
    ghost predicate Searching(name: string)
      reads this
    {
      && Marked() && Ordered(world, examined)
      && found == Pick(world, name, examined)
      && (foundBlocked <==> found.Some? && Blocks(world, name, found.value))
    }

    /** find_method_recursive. */
    method FindMethodRecursive(o: int, name: string) returns (where: Option<int>)
      requires Valid() && Acyclic(world)
      modifies this
      ensures Valid()
      ensures where == Pick(world, name, Order(world, o))
      ensures forall i, j :: 0 <= i < j < |examined| ==> examined[i] != examined[j]
      ensures examined <= Order(world, o) && (where.None? ==> examined == Order(world, o))
    {
      if o !in world {
        examined := [];
        return None;
      }
      searchGen, found, foundBlocked := searchGen + 1, None, false;
      examined := [];
      forall k ensures PlaceAt(world, [], k) { }
      WaySelf(world, o);
      DoFmr(o, name, [o]);
      where := found;
      if foundBlocked { PickPrefix(world, name, examined, Order(world, o)); }
      forall i, j | 0 <= i < j < |examined| ensures examined[i] != examined[j] { Distinct(world, examined, i, j); }
    }

    /** do_fmr; path is how it came to o. */
    method DoFmr(o: int, name: string, ghost path: seq<int>)
      requires Searching(name) && Acyclic(world) && Way(world, path) && Last(path) == o
      modifies this
      ensures Searching(name) && searchGen == old(searchGen)
      ensures old(foundBlocked) ==> examined == old(examined)
      ensures !old(foundBlocked) ==> examined <= Post(world, path, old(examined))
      ensures !foundBlocked ==> examined == Post(world, path, old(examined))
      decreases |world| + 1 - |path|, 0
    {
      if o !in world || lastSearch[o] == searchGen { return; }
      if foundBlocked { return; }
      ghost var seen := examined;
      assert Post(world, path, seen) == PostAll(world, path, 0, seen) + [o];
      PostOrdered(world, path, seen);
      WayBound(world, path);
      SearchParents(o, name, path);
      if foundBlocked { return; }
      Examine(o, name);
    }

    /** The parents of o, in reverse order. */
    method SearchParents(o: int, name: string, ghost path: seq<int>)
      requires Searching(name) && !foundBlocked && o in world && Acyclic(world) && Way(world, path) && Last(path) == o
      requires |path| <= |world|
      modifies this
      ensures Searching(name) && searchGen == old(searchGen)
      ensures examined <= PostAll(world, path, 0, old(examined))
      ensures !foundBlocked ==> examined == PostAll(world, path, 0, old(examined))
      decreases |world| - |path| + 1, -1
    {
      ghost var seen := examined;
      var parents := world[o].parents;
      var i: nat := |parents|;
      while i > 0
        invariant i <= |parents| && Searching(name) && searchGen == old(searchGen) && !foundBlocked
        invariant examined == PostAll(world, path, i, seen)
      {
        i := i - 1;
        WaySnoc(world, path, parents[i]);
        WayBound(world, path + [parents[i]]);
        DoFmr(parents[i], name, path + [parents[i]]);
        PostAllGrows(world, path, 0, i, seen);
        if foundBlocked { return; }
      }
    }

    /** The object itself, after its ancestors. */
    method Examine(o: int, name: string)
      requires Searching(name) && !foundBlocked && o in world && Ordered(world, examined + [o])
      modifies this
      ensures Searching(name) && searchGen == old(searchGen) && examined == old(examined) + [o]
    {
      ghost var before := examined;
      Mark(o);
      assert examined[..|examined| - 1] == before && Last(examined) == o;
      if name in world[o].methods {
        found := Some(o);
        if world[o].methods[name] { foundBlocked := true; }
      }
    }

    ghost predicate Marked()
      reads this
    {
      Valid() && forall o :: o in world ==> (lastSearch[o] == searchGen <==> o in examined)
    }

    method Mark(o: int)
      requires Marked() && o in world
      modifies this`lastSearch, this`examined
      ensures Marked() && examined == old(examined) + [o]
    {
      lastSearch := lastSearch[o := searchGen];
      examined := examined + [o];
      assert forall x :: x in examined <==> x in old(examined) || x == o;
    }
  }
}

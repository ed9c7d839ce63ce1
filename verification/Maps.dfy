/** What map_add and map_find do for each other (src/src/map.c:49-106). */
module Maps {
  import opened Wrappers
  import opened Buckets
  import opened Values

  /** The entry is in key's chain and its key equals. */
  predicate Matches(size: nat, p: Pair, key: Var)
    requires size > 0
  {
    HashVar(p.key) % size == HashVar(key) % size && VarEq(key, p.key)
  }

  lemma {:induction false} SlotFirst(size: nat, pairs: seq<Pair>, key: Var, k: nat)
    requires size > 0 && k <= |pairs| && (k < |pairs| ==> Matches(size, pairs[k], key))
    requires forall j :: 0 <= j < k ==> !Matches(size, pairs[j], key)
    ensures Slot(size, pairs, key) == k
  {
    if k > 0 {
      assert !Matches(size, pairs[0], key);
      assert forall j :: 0 <= j < k - 1 ==> pairs[1..][j] == pairs[j + 1];
      SlotFirst(size, pairs[1..], key, k - 1);
    }
  }

  lemma {:induction false} NoneBefore(size: nat, pairs: seq<Pair>, key: Var)
    requires size > 0
    ensures forall j :: 0 <= j < Slot(size, pairs, key) ==> !Matches(size, pairs[j], key)
  {
    if pairs != [] && !Matches(size, pairs[0], key) {
      NoneBefore(size, pairs[1..], key);
      assert forall j :: 0 < j < |pairs| ==> pairs[j] == pairs[1..][j - 1];
    }
  }

  /** A new entry does not hide the others. */
  lemma SlotInserted(size: nat, pairs: seq<Pair>, n: nat, e: Pair, key: Var)
    requires size > 0 && n <= |pairs|
    ensures var k, t := Slot(size, pairs, key), pairs[..n] + [e] + pairs[n..];
            !Matches(size, e, key) ==> Slot(size, t, key) == if k < n then k else k + 1
    ensures var k, t := Slot(size, pairs, key), pairs[..n] + [e] + pairs[n..];
            Matches(size, e, key) && k == |pairs| ==> Slot(size, t, key) == n
  {
    var k, t := Slot(size, pairs, key), pairs[..n] + [e] + pairs[n..];
    NoneBefore(size, pairs, key);
    assert forall i :: 0 <= i < |t| ==> t[i] == if i < n then pairs[i] else if i == n then e else pairs[i - 1];
    if !Matches(size, e, key) {
      SlotFirst(size, t, key, if k < n then k else k + 1);
    } else if k == |pairs| {
      SlotFirst(size, t, key, n);
    }
  }

  lemma FindInserted(size: nat, pairs: seq<Pair>, n: nat, e: Pair, key: Var)
    requires size > 0 && n <= |pairs|
    ensures var t := pairs[..n] + [e] + pairs[n..];
            && (!Matches(size, e, key) ==> MapFind(size, t, key) == MapFind(size, pairs, key))
            && (Matches(size, e, key) && MapFind(size, pairs, key).None? ==> MapFind(size, t, key) == Some(e.val))
  {
    hide Slot, Matches;
    SlotInserted(size, pairs, n, e, key);
  }

  /** A key that was put is found with its value, whatever was there before. */
  lemma AddedIsFound(size: nat, pairs: seq<Pair>, key: Var, val: Var)
    requires size > 0 && VarEq(key, key)
    ensures MapFind(size, MapAdd(size, pairs, key, val), key) == Some(val)
  {
    hide VarEq, Before;
    var k, e := Slot(size, pairs, key), Pair(key, val);
    if k < |pairs| {
      SlotByKeys(size, pairs, MapAdd(size, pairs, key, val), key);
    } else {
      FindInserted(size, pairs, Before(pairs, BucketOf(size), BucketOf(size)(e) + 1), e, key);
    }
  }

  lemma OthersApart(size: nat, pairs: seq<Pair>, key: Var, other: Var)
    requires size > 0 && !VarEq(other, key) && Slot(size, pairs, key) < |pairs|
    ensures Slot(size, pairs, other) != Slot(size, pairs, key)
  {
    var k := Slot(size, pairs, key);
    if Slot(size, pairs, other) == k {
      VarEqSym(key, pairs[k].key);
      VarEqTrans(other, pairs[k].key, key);
      assert false;
    }
  }

  /** All other keys are found as before. */
  lemma OthersFound(size: nat, pairs: seq<Pair>, key: Var, val: Var, other: Var)
    requires size > 0 && !VarEq(other, key)
    ensures MapFind(size, MapAdd(size, pairs, key, val), other) == MapFind(size, pairs, other)
  {
    var k := Slot(size, pairs, key);
    if k < |pairs| {
      OthersReplaced(size, pairs, key, val, other);
    } else {
      OthersAppended(size, pairs, Pair(key, val), other);
    }
  }

  lemma OthersReplaced(size: nat, pairs: seq<Pair>, key: Var, val: Var, other: Var)
    requires size > 0 && !VarEq(other, key) && Slot(size, pairs, key) < |pairs|
    ensures MapFind(size, MapAdd(size, pairs, key, val), other) == MapFind(size, pairs, other)
  {
    hide VarEq, HashVar, Slot;
    SlotByKeys(size, pairs, MapAdd(size, pairs, key, val), other);
    OthersApart(size, pairs, key, other);
  }

  lemma OthersAppended(size: nat, pairs: seq<Pair>, e: Pair, other: Var)
    requires size > 0 && !VarEq(other, e.key)
    ensures MapFind(size, Append(pairs, e, BucketOf(size)), other) == MapFind(size, pairs, other)
  {
    hide VarEq, HashVar, Slot, Before, MapFind;
    FindInserted(size, pairs, Before(pairs, BucketOf(size), BucketOf(size)(e) + 1), e, other);
  }
}

/** Hash tables with chained buckets, as the sequence of their entries in traversal order: bucket
    after bucket, each chain from its head. `at` gives the bucket of an entry. */
module Buckets {

  ghost predicate Sorted<E(!new)>(s: seq<E>, at: E -> int) {
    forall i, j :: 0 <= i < j < |s| ==> at(s[i]) <= at(s[j])
  }

  /** How many entries lie in buckets before b, or up to and including b. */
  function Before<E>(s: seq<E>, at: E -> int, b: int): (n: nat)
    ensures n <= |s|
  {
    if s == [] then 0 else if at(s[0]) < b then 1 + Before(s[1..], at, b) else 0
  }

  /** A new entry at the tail of its chain. */
  function Append<E>(s: seq<E>, e: E, at: E -> int): seq<E> {
    var n := Before(s, at, at(e) + 1);
    s[..n] + [e] + s[n..]
  }

  /** A new entry at the head of its chain. */
  function Prepend<E>(s: seq<E>, e: E, at: E -> int): seq<E> {
    var n := Before(s, at, at(e));
    s[..n] + [e] + s[n..]
  }

  lemma {:induction false} BeforeSplits<E(!new)>(s: seq<E>, at: E -> int, b: int)
    requires Sorted(s, at)
    ensures forall i :: 0 <= i < |s| ==> (i < Before(s, at, b) <==> at(s[i]) < b)
  {
    if s != [] {
      assert forall i :: 0 <= i < |s[1..]| ==> s[1..][i] == s[i + 1];
      BeforeSplits(s[1..], at, b);
      forall i | 0 <= i < |s| ensures i < Before(s, at, b) <==> at(s[i]) < b {
        if i > 0 { assert s[i] == s[1..][i - 1]; assert at(s[0]) <= at(s[i]); }
      }
    }
  }

  lemma InsertedSorted<E(!new)>(s: seq<E>, e: E, at: E -> int, n: nat)
    requires Sorted(s, at) && n <= |s|
    requires forall i :: 0 <= i < n ==> at(s[i]) <= at(e)
    requires forall i :: n <= i < |s| ==> at(e) <= at(s[i])
    ensures Sorted(s[..n] + [e] + s[n..], at)
  {
    var t := s[..n] + [e] + s[n..];
    assert forall i :: 0 <= i < |t| ==> t[i] == if i < n then s[i] else if i == n then e else s[i - 1];
  }

  /** An insertion keeps the table in bucket order and adds exactly the new entry. */
  lemma AppendKeeps<E(!new)>(s: seq<E>, e: E, at: E -> int)
    requires Sorted(s, at)
    ensures Sorted(Append(s, e, at), at) && multiset(Append(s, e, at)) == multiset(s) + multiset{e}
  {
    var n := Before(s, at, at(e) + 1);
    BeforeSplits(s, at, at(e) + 1);
    InsertedSorted(s, e, at, n);
    assert s == s[..n] + s[n..];
  }

  lemma PrependKeeps<E(!new)>(s: seq<E>, e: E, at: E -> int)
    requires Sorted(s, at)
    ensures Sorted(Prepend(s, e, at), at) && multiset(Prepend(s, e, at)) == multiset(s) + multiset{e}
  {
    var n := Before(s, at, at(e));
    BeforeSplits(s, at, at(e));
    InsertedSorted(s, e, at, n);
    assert s == s[..n] + s[n..];
  }
}

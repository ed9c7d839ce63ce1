/** An object that was read back can be written again: it fits wherever the object that was written fitted, and takes
    no more room. */
module PackAgain {
  import opened Wrappers
  import opened Buckets
  import opened Values
  import opened PackSpec
  import opened PackProof

  // ---------------------------------------------------------------- sums

  lemma {:induction false} SumJoin<T>(a: seq<T>, b: seq<T>, f: T -> nat)
    ensures SumAll(a + b, f) == SumAll(a, f) + SumAll(b, f)
    decreases |b|
  {
    if b == [] {
      assert a + b == a;
    } else {
      assert (a + b)[..|a| + |b| - 1] == a + b[..|b| - 1];
      SumJoin(a, b[..|b| - 1], f);
    }
  }

  lemma SumInserted<T>(s: seq<T>, n: nat, e: T, f: T -> nat)
    requires n <= |s|
    ensures SumAll(s[..n] + [e] + s[n..], f) == SumAll(s, f) + f(e)
  {
    SumJoin(s[..n] + [e], s[n..], f);
    SumJoin(s[..n], [e], f);
    SumJoin(s[..n], s[n..], f);
    assert s[..n] + s[n..] == s && [e][..0] == [];
  }

  lemma AppendSum<T>(s: seq<T>, e: T, at: T -> int, f: T -> nat)
    ensures var t := Append(s, e, at);
            |t| == |s| + 1 && SumAll(t, f) == SumAll(s, f) + f(e) && forall x :: x in t ==> x in s || x == e
  {
    SumInserted(s, Before(s, at, at(e) + 1), e, f);
  }

  lemma PrependSum<T>(s: seq<T>, e: T, at: T -> int, f: T -> nat)
    ensures var t := Prepend(s, e, at);
            |t| == |s| + 1 && SumAll(t, f) == SumAll(s, f) + f(e) && forall x :: x in t ==> x in s || x == e
  {
    SumInserted(s, Before(s, at, at(e)), e, f);
  }

  lemma SumSet<T>(s: seq<T>, n: nat, e: T, f: T -> nat)
    requires n < |s|
    ensures SumAll(s[n := e], f) + f(s[n]) == SumAll(s, f) + f(e)
  {
    var t := s[..n] + s[n + 1..];
    SumInserted(t, n, e, f);
    SumInserted(t, n, s[n], f);
    assert t[..n] == s[..n] && t[n..] == s[n + 1..];
    assert s[..n] + [e] + s[n + 1..] == s[n := e] && s[..n] + [s[n]] + s[n + 1..] == s;
  }

  lemma {:induction false} SumLess<T>(xs: seq<T>, ys: seq<T>, f: T -> nat)
    requires |xs| == |ys| && forall i :: 0 <= i < |xs| ==> f(ys[i]) <= f(xs[i])
    ensures SumAll(ys, f) <= SumAll(xs, f)
  {
    if xs != [] { SumLess(xs[..|xs| - 1], ys[..|ys| - 1], f); }
  }

  lemma {:induction false} PairsSum(pairs: seq<Pair>)
    ensures SizePairs(pairs) == SumAll(pairs, SizePair)
  {
    if pairs != [] { PairsSum(pairs[..|pairs| - 1]); }
  }

  lemma {:induction false} PairsAll(pairs: seq<Pair>)
    ensures StorablePairs(pairs) <==> forall i :: 0 <= i < |pairs| ==> StorablePair(pairs[i])
  {
    if pairs != [] {
      var n := |pairs| - 1;
      PairsAll(pairs[..n]);
      assert forall i :: 0 <= i < n ==> pairs[..n][i] == pairs[i];
    }
  }

  // ---------------------------------------------------------------- values

  lemma AddFits(size: nat, pairs: seq<Pair>, p: Pair)
    requires size > 0 && StorablePairs(pairs) && StorablePair(p)
    ensures var t := MapAdd(size, pairs, p.key, p.val);
            StorablePairs(t) && |t| <= |pairs| + 1 && SizePairs(t) <= SizePairs(pairs) + SizePair(p)
  {
    hide SizeVar, StorableVar;
    var t, k := MapAdd(size, pairs, p.key, p.val), Slot(size, pairs, p.key);
    PairsAll(pairs);
    PairsAll(t);
    PairsSum(pairs);
    PairsSum(t);
    if k < |pairs| {
      SumSet(pairs, k, t[k], SizePair);
      assert StorablePair(pairs[k]);
    } else {
      AppendSum(pairs, p, BucketOf(size), SizePair);
    }
  }

  lemma {:induction false} RehashFits(size: nat, pairs: seq<Pair>)
    requires size > 0 && StorablePairs(pairs)
    ensures var t := Rehash(size, pairs);
            StorablePairs(t) && |t| <= |pairs| && SizePairs(t) <= SizePairs(pairs)
  {
    if pairs != [] {
      var n := |pairs| - 1;
      RehashFits(size, pairs[..n]);
      AddFits(size, Rehash(size, pairs[..n]), pairs[n]);
    }
  }

  lemma {:induction false} VarFits(v: Var)
    requires StorableVar(v)
    ensures StorableVar(Norm(v)) && SizeVar(Norm(v)) <= SizeVar(v)
    decreases v, 1
  {
    match v {
      case List(els) => ElsFit(els);
      case Map(_, pairs) =>
        PairsFit(pairs);
        RehashFits(TableSize(|pairs|), NormPairs(pairs));
      case _ =>
    }
  }

  lemma {:induction false} ElsFit(els: seq<Var>)
    requires StorableEls(els)
    ensures StorableEls(NormList(els)) && SizeEls(NormList(els)) <= SizeEls(els)
    decreases els, 0
  {
    if els != [] {
      var n := |els| - 1;
      ElsFit(els[..n]);
      VarFits(els[n]);
      assert NormList(els)[..n] == NormList(els[..n]);
    }
  }

  lemma {:induction false} PairsFit(pairs: seq<Pair>)
    requires StorablePairs(pairs)
    ensures StorablePairs(NormPairs(pairs)) && SizePairs(NormPairs(pairs)) <= SizePairs(pairs)
    decreases pairs, 0
  {
    if pairs != [] {
      var n := |pairs| - 1;
      PairsFit(pairs[..n]);
      PairFits(pairs[n]);
      assert NormPairs(pairs)[..n] == NormPairs(pairs[..n]);
    }
  }

  lemma {:induction false} PairFits(p: Pair)
    requires StorablePair(p)
    ensures StorablePair(NormPair(p)) && SizePair(NormPair(p)) <= SizePair(p)
    decreases p, 0
  {
    VarFits(p.key);
    VarFits(p.val);
  }

  // ---------------------------------------------------------------- tables

  lemma VardefFits(v: Vardef)
    requires StorableVardef(v)
    ensures StorableVardef(NormVardef(v)) && SizeVardef(NormVardef(v)) <= SizeVardef(v)
  {
    VarFits(v.value);
  }

  lemma VardefsFit(vs: seq<Vardef>)
    requires forall v :: v in vs ==> StorableVardef(v)
    ensures var ws := Image(vs, NormVardef);
            (forall v :: v in ws ==> StorableVardef(v)) && SizeVardefs(ws) <= SizeVardefs(vs)
  {
    var ws := Image(vs, NormVardef);
    forall i | 0 <= i < |vs| ensures StorableVardef(ws[i]) && SizeVardef(ws[i]) <= SizeVardef(vs[i]) { VardefFits(vs[i]); }
    SumLess(vs, ws, SizeVardef);
  }

  lemma MethodFits(m: Method)
    requires StorableMethod(m)
    ensures StorableMethod(NormMethod(m)) && SizeMethod(NormMethod(m)) <= SizeMethod(m)
  {
    VardefsFit(m.vars);
  }

  lemma MethodsFit(ms: seq<Method>)
    requires forall m :: m in ms ==> StorableMethod(m)
    ensures var ns := Image(ms, NormMethod);
            (forall m :: m in ns ==> StorableMethod(m)) && SumAll(ns, SizeMethod) <= SumAll(ms, SizeMethod)
  {
    var ns := Image(ms, NormMethod);
    forall i | 0 <= i < |ms| ensures StorableMethod(ns[i]) && SizeMethod(ns[i]) <= SizeMethod(ms[i]) { MethodFits(ms[i]); }
    SumLess(ms, ns, SizeMethod);
  }

  lemma {:induction false} AddMethodsFit(symbols: seq<Symbol>, size: nat, ms: seq<Method>)
    requires size > 0 && forall m :: m in ms ==> StorableMethod(m)
    ensures var t := AddMethods(symbols, size, ms);
            (forall m :: m in t ==> StorableMethod(m)) && |t| == |ms| && SumAll(t, SizeMethod) == SumAll(ms, SizeMethod)
  {
    hide StorableMethod, SizeMethod, Append;
    if ms != [] {
      var n := |ms| - 1;
      AddMethodsFit(symbols, size, ms[..n]);
      AppendSum(AddMethods(symbols, size, ms[..n]), ms[n], MethodBucket(symbols, size), SizeMethod);
    }
  }

  lemma {:induction false} AddGlobalsFit(symbols: seq<Symbol>, size: nat, vs: seq<Vardef>)
    requires size > 0 && forall v :: v in vs ==> StorableVardef(v)
    ensures var t := AddGlobals(symbols, size, vs);
            (forall v :: v in t ==> StorableVardef(v)) && |t| <= |vs| && SizeVardefs(t) <= SizeVardefs(vs)
  {
    hide StorableVardef, SizeVardef, Prepend, HasName;
    if vs != [] {
      var n := |vs| - 1;
      AddGlobalsFit(symbols, size, vs[..n]);
      PrependSum(AddGlobals(symbols, size, vs[..n]), vs[n], VarBucket(symbols, size), SizeVardef);
    }
  }

  /** The object that a read gives back can be put again, in the room of the one that was put. */
  lemma ObjectFits(o: Object)
    requires Storable(o)
    ensures Storable(NormObject(o)) && SizeObject(NormObject(o)) <= SizeObject(o)
  {
    hide StorableVardef, StorableMethod, StorableVerb, StorableLock, StorableSymbol, StorableEls, SizeEls, SumAll,
         AddMethods, AddGlobals;
    var ms, vs := Entries(o.methods), Entries(o.vars);
    ElsFit(o.parents);
    MethodsFit(ms);
    VardefsFit(vs);
    AddMethodsFit(o.symbols, TableSize(|ms| / HASH_INIT_LOAD), Image(ms, NormMethod));
    AddGlobalsFit(o.symbols, TableSize(|vs| / HASH_INIT_LOAD), Image(vs, NormVardef));
  }
}

/** What an object that was packed and unpacked still is (src/src/dbunpack.c:24-244), field by field. */
module PackKeeps {
  import opened Wrappers
  import opened Buckets
  import opened Values
  import opened PackSpec
  import opened PackProof

  // ---------------------------------------------------------------- values

  /** The hash of key is that of every key it equals. */
  ghost predicate Hashed(pairs: seq<Pair>, key: Var) {
    forall p :: p in pairs && VarEq(key, p.key) ==> HashVar(key) == HashVar(p.key)
  }

  /** Equal, but that maps at any depth are tables of as many entries that answer every key alike. */
  ghost predicate Alike(v: Var, w: Var)
    decreases v
  {
    match v
    case List(els) => w.List? && |w.els| == |els| && forall i :: 0 <= i < |els| ==> Alike(els[i], w.els[i])
    case Map(size, pairs) =>
      && w.Map? && |w.pairs| == |pairs| && size > 0 && w.size > 0
      && forall key {:trigger Slot(size, pairs, key)} :: Hashed(pairs, key) ==>
           var k, j := Slot(size, pairs, key), Slot(w.size, w.pairs, key);
           && (k == |pairs| <==> j == |w.pairs|)
           && (k < |pairs| && j < |w.pairs| ==> w.pairs[j].key == pairs[k].key && Alike(pairs[k].val, w.pairs[j].val))
    case _ => w == v
  }

  lemma {:induction false} ElsGood(els: seq<Var>, i: nat)
    requires GoodList(els) && i < |els|
    ensures GoodMaps(els[i]) && NormList(els)[i] == Norm(els[i])
  {
    if i < |els| - 1 { ElsGood(els[..|els| - 1], i); }
  }

  lemma {:induction false} PairsGood(pairs: seq<Pair>, i: nat)
    requires GoodPairs(pairs) && i < |pairs|
    ensures GoodPair(pairs[i])
  {
    if i < |pairs| - 1 { PairsGood(pairs[..|pairs| - 1], i); }
  }

  lemma {:induction false} NormAlike(v: Var)
    requires GoodMaps(v)
    ensures Alike(v, Norm(v))
    decreases v
  {
    match v {
      case List(els) =>
        forall i | 0 <= i < |els| ensures Alike(els[i], NormList(els)[i]) {
          ElsGood(els, i);
          NormAlike(els[i]);
        }
      case Map(size, pairs) =>
        var m := Norm(v);
        forall key {:trigger Slot(size, pairs, key)} | Hashed(pairs, key)
          ensures var k, j := Slot(size, pairs, key), Slot(m.size, m.pairs, key);
                  && |m.pairs| == |pairs| && (k == |pairs| <==> j == |m.pairs|)
                  && (k < |pairs| && j < |m.pairs| ==> m.pairs[j].key == pairs[k].key && Alike(pairs[k].val, m.pairs[j].val))
        {
          var k := Slot(size, pairs, key);
          EntryKept(size, pairs, key);
          if k < |pairs| {
            PairsGood(pairs, k);
            NormAlike(pairs[k].val);
          }
        }
        NormMapAnswers(size, pairs, Pc(0));
      case _ =>
    }
  }

  /** The entry that answers a key has the same key in the new table. */
  lemma EntryKept(size: nat, pairs: seq<Pair>, key: Var)
    requires GoodMaps(Map(size, pairs)) && Hashed(pairs, key)
    ensures var m := Norm(Map(size, pairs));
            var k, j := Slot(size, pairs, key), Slot(m.size, m.pairs, key);
            && |m.pairs| == |pairs| && (k == |pairs| <==> j == |m.pairs|)
            && (k < |pairs| && j < |m.pairs| ==> m.pairs[j] == Pair(pairs[k].key, Norm(pairs[k].val)))
  {
    hide VarEq, Rehash, NormPairs, GoodPairs, DistinctKeys, HashVar;
    var m := Norm(Map(size, pairs));
    var k, j := Slot(size, pairs, key), Slot(m.size, m.pairs, key);
    NormMapAnswers(size, pairs, key);
    if k < |pairs| && j < |m.pairs| {
      NormPairsKeys(pairs);
      OneEntry(pairs, m.pairs, key, k, j);
    }
  }

  lemma OneEntry(pairs: seq<Pair>, t: seq<Pair>, key: Var, k: nat, j: nat)
    requires GoodPairs(pairs) && DistinctKeys(pairs) && t == Rehash(TableSize(|pairs|), NormPairs(pairs))
    requires k < |pairs| && VarEq(key, NormPairs(pairs)[k].key) && j < |t| && VarEq(key, t[j].key)
    ensures t[j] == NormPairs(pairs)[k]
  {
    hide VarEq, Rehash, NormPairs, GoodPairs, DistinctKeys, Sorted;
    var ps := NormPairs(pairs);
    NormPairsDistinct(pairs);
    RehashKeeps(TableSize(|pairs|), ps);
    assert t[j] in multiset(t) && t[j] in multiset(ps);
    assert ps[k] in ps;
    OneAnswer(ps, key, ps[k], t[j]);
  }

  // ---------------------------------------------------------------- tables

  /** t is ms in bucket order, p says where each entry was; in a chain they are in the old order, or the reverse. */
  ghost predicate Spread<T(!new)>(ms: seq<T>, t: seq<T>, at: T -> int, p: seq<nat>, forth: bool) {
    && |p| == |t| == |ms| && (forall i :: 0 <= i < |p| ==> p[i] < |ms| && t[i] == ms[p[i]])
    && (forall i, j :: 0 <= i < j < |p| ==> p[i] != p[j] && at(t[i]) <= at(t[j]))
    && forall i, j :: 0 <= i < j < |p| && at(t[i]) == at(t[j]) ==> (p[i] < p[j] <==> forth)
  }

  /** e has come in at n. */
  ghost predicate Entered<T(!new)>(t: seq<T>, e: T, n: nat, u: seq<T>) {
    && n <= |t| && |u| == |t| + 1 && u[n] == e
    && (forall i :: 0 <= i < n ==> u[i] == t[i]) && forall i :: n < i < |u| ==> u[i] == t[i - 1]
  }

  /** It stands behind, or before, the entries of its own chain. */
  ghost predicate InPlace<T(!new)>(t: seq<T>, at: T -> int, e: T, n: nat, forth: bool) {
    && n <= |t| && (forall i :: 0 <= i < n ==> if forth then at(t[i]) <= at(e) else at(t[i]) < at(e))
    && forall i :: n <= i < |t| ==> if forth then at(e) < at(t[i]) else at(e) <= at(t[i])
  }

  lemma SpreadSorted<T(!new)>(ms: seq<T>, t: seq<T>, at: T -> int, p: seq<nat>, forth: bool)
    requires Spread(ms, t, at, p, forth)
    ensures Sorted(t, at)
  {
  }

  lemma SpreadMore<T(!new)>(ms: seq<T>, t: seq<T>, at: T -> int, p: seq<nat>, e: T, n: nat, forth: bool, u: seq<T>, q: seq<nat>)
    requires Spread(ms, t, at, p, forth) && InPlace(t, at, e, n, forth)
    requires Entered(t, e, n, u) && Entered(p, |ms|, n, q)
    ensures Spread(ms + [e], u, at, q, forth)
  {
    var ms' := ms + [e];
    forall i | 0 <= i < |q| ensures q[i] < |ms'| && u[i] == ms'[q[i]] {
      var k := if i < n then i else i - 1;
      if i != n { assert u[i] == t[k] && q[i] == p[k]; }
    }
    forall i, j | 0 <= i < j < |q|
      ensures q[i] != q[j] && at(u[i]) <= at(u[j]) && (at(u[i]) == at(u[j]) ==> (q[i] < q[j] <==> forth))
    {
      var k, l := if i < n then i else i - 1, if j < n then j else j - 1;
      if i != n { assert u[i] == t[k] && q[i] == p[k]; }
      if j != n { assert u[j] == t[l] && q[j] == p[l]; }
    }
  }

  lemma AppendEnters<T(!new)>(t: seq<T>, e: T, at: T -> int) returns (n: nat)
    requires Sorted(t, at)
    ensures Entered(t, e, n, Append(t, e, at)) && InPlace(t, at, e, n, true)
  {
    n := Before(t, at, at(e) + 1);
    BeforeSplits(t, at, at(e) + 1);
  }

  lemma PrependEnters<T(!new)>(t: seq<T>, e: T, at: T -> int) returns (n: nat)
    requires Sorted(t, at)
    ensures Entered(t, e, n, Prepend(t, e, at)) && InPlace(t, at, e, n, false)
  {
    n := Before(t, at, at(e));
    BeforeSplits(t, at, at(e));
  }

  lemma NumberEnters(p: seq<nat>, k: nat, n: nat)
    requires n <= |p|
    ensures Entered(p, k, n, p[..n] + [k] + p[n..])
  {
  }

  lemma {:induction false} MethodsSpread(symbols: seq<Symbol>, size: nat, ms: seq<Method>) returns (p: seq<nat>)
    requires size > 0
    ensures Spread(ms, AddMethods(symbols, size, ms), MethodBucket(symbols, size), p, true)
    decreases |ms|
  {
    hide Append, Entered, InPlace, MethodBucket;
    p := [];
    if ms != [] {
      var n := |ms| - 1;
      p := MethodsSpread(symbols, size, ms[..n]);
      var t, at := AddMethods(symbols, size, ms[..n]), MethodBucket(symbols, size);
      SpreadSorted(ms[..n], t, at, p, true);
      var b := AppendEnters(t, ms[n], at);
      Bounded(t, at, ms[n], b, true);
      NumberEnters(p, n, b);
      SpreadMore(ms[..n], t, at, p, ms[n], b, true, Append(t, ms[n], at), p[..b] + [n] + p[b..]);
      p := p[..b] + [n] + p[b..];
      assert ms[..n] + [ms[n]] == ms;
    }
  }

  lemma Bounded<T(!new)>(t: seq<T>, at: T -> int, e: T, n: nat, forth: bool)
    requires InPlace(t, at, e, n, forth)
    ensures n <= |t|
  {
  }

  lemma {:induction false} VarsSpread(symbols: seq<Symbol>, size: nat, vs: seq<Vardef>) returns (p: seq<nat>)
    requires size > 0 && DistinctNames(vs)
    ensures Spread(vs, AddGlobals(symbols, size, vs), VarBucket(symbols, size), p, false)
    decreases |vs|
  {
    hide Prepend, Entered, InPlace, VarBucket;
    p := [];
    if vs != [] {
      var n := |vs| - 1;
      p := VarsSpread(symbols, size, vs[..n]);
      var t, at := AddGlobals(symbols, size, vs[..n]), VarBucket(symbols, size);
      assert !HasName(t, vs[n].name);
      SpreadSorted(vs[..n], t, at, p, false);
      var b := PrependEnters(t, vs[n], at);
      Bounded(t, at, vs[n], b, false);
      NumberEnters(p, n, b);
      SpreadMore(vs[..n], t, at, p, vs[n], b, false, Prepend(t, vs[n], at), p[..b] + [n] + p[b..]);
      p := p[..b] + [n] + p[b..];
      assert vs[..n] + [vs[n]] == vs;
    }
  }

  // ---------------------------------------------------------------- objects

  ghost predicate SameVar(v: Vardef, w: Vardef) { w.name == v.name && Alike(v.value, w.value) }

  ghost predicate SameVars(vs: seq<Vardef>, ws: seq<Vardef>) {
    |ws| == |vs| && forall i :: 0 <= i < |vs| ==> SameVar(vs[i], ws[i])
  }

  ghost predicate SameMethod(m: Method, n: Method) {
    n.name == m.name && n.blocked == m.blocked && n.ehandler == m.ehandler && n.code == m.code && SameVars(m.vars, n.vars)
  }

  /** p takes every place of ys to one of xs, each once. */
  ghost predicate OneToOne(p: seq<nat>, n: nat) {
    |p| == n && (forall i :: 0 <= i < n ==> p[i] < n) && forall i, j :: 0 <= i < j < n ==> p[i] != p[j]
  }

  ghost predicate MethodsKept(ms: seq<Method>, ns: seq<Method>, p: seq<nat>) {
    OneToOne(p, |ms|) && |ns| == |ms| && forall i :: 0 <= i < |ns| ==> SameMethod(ms[p[i]], ns[i])
  }

  ghost predicate VarsKept(vs: seq<Vardef>, ws: seq<Vardef>, p: seq<nat>) {
    OneToOne(p, |vs|) && |ws| == |vs| && forall i :: 0 <= i < |ws| ==> SameVar(vs[p[i]], ws[i])
  }

  ghost predicate GoodVars(vs: seq<Vardef>) { forall v :: v in vs ==> GoodMaps(v.value) }

  /** Every map in the object has distinct keys, and no two variables of the object have one name. */
  ghost predicate GoodObject(o: Object) {
    && GoodList(o.parents) && GoodVars(Entries(o.vars)) && DistinctNames(Entries(o.vars))
    && forall m :: m in Entries(o.methods) ==> GoodVars(m.vars)
  }

  /** r is o, but for the order of its methods and variables, which p and q tell, and the tables of its maps. */
  ghost predicate Kept(o: Object, r: Object, p: seq<nat>, q: seq<nat>) {
    && r.id == o.id && r.server == o.server && r.stSize == o.stSize && r.symbols == o.symbols
    && r.verbs == o.verbs && r.locks == o.locks && Alike(List(o.parents), List(r.parents))
    && MethodsKept(Entries(o.methods), Entries(r.methods), p)
    && VarsKept(Entries(o.vars), Entries(r.vars), q)
  }

  ghost predicate Keeps(o: Object, r: Object) { exists p, q :: Kept(o, r, p, q) }

  lemma VarsSame(vs: seq<Vardef>)
    requires GoodVars(vs)
    ensures SameVars(vs, Image(vs, NormVardef))
  {
    forall i | 0 <= i < |vs| ensures SameVar(vs[i], Image(vs, NormVardef)[i]) {
      NormAlike(vs[i].value);
    }
  }

  lemma MethodsSame(ms: seq<Method>, i: nat)
    requires (forall m :: m in ms ==> GoodVars(m.vars)) && i < |ms|
    ensures SameMethod(ms[i], Image(ms, NormMethod)[i])
  {
    VarsSame(ms[i].vars);
  }

  lemma NamesImage(vs: seq<Vardef>)
    requires DistinctNames(vs)
    ensures DistinctNames(Image(vs, NormVardef))
  {
    var ws := Image(vs, NormVardef);
    assert forall i :: 0 <= i < |ws| ==> ws[i].name == vs[i].name;
  }

  lemma MethodTableKept(o: Object) returns (p: seq<nat>)
    requires forall m :: m in Entries(o.methods) ==> GoodVars(m.vars)
    ensures MethodsKept(Entries(o.methods), Entries(NormObject(o).methods), p)
  {
    var ms := Entries(o.methods);
    var ns := Image(ms, NormMethod);
    p := MethodsSpread(o.symbols, TableSize(|ns| / HASH_INIT_LOAD), ns);
    forall i | 0 <= i < |ms| ensures SameMethod(ms[i], ns[i]) { MethodsSame(ms, i); }
  }

  lemma VarTableKept(o: Object) returns (q: seq<nat>)
    requires GoodVars(Entries(o.vars)) && DistinctNames(Entries(o.vars))
    ensures VarsKept(Entries(o.vars), Entries(NormObject(o).vars), q)
  {
    var vs := Entries(o.vars);
    var ws := Image(vs, NormVardef);
    NamesImage(vs);
    VarsSame(vs);
    q := VarsSpread(o.symbols, TableSize(|ws| / HASH_INIT_LOAD), ws);
  }

  lemma NormKeeps(o: Object)
    requires GoodObject(o)
    ensures Keeps(o, NormObject(o))
  {
    hide Norm, NormList, SameMethod, SameVar, MethodTable, VarTable;
    var p := MethodTableKept(o);
    var q := VarTableKept(o);
    ParentsKept(o);
    assert Kept(o, NormObject(o), p, q);
  }

  lemma ParentsKept(o: Object)
    requires GoodList(o.parents)
    ensures Alike(List(o.parents), List(NormObject(o).parents))
  {
    NormAlike(List(o.parents));
  }

  /** The object read back is the one packed: its id, server, symbols, verbs and locks are the same; its methods are the
      same one for one, with their names, blocked flags, handlers and words; and so are its variables and those of its
      methods, but that maps inside are new tables that answer alike. */
  lemma ObjectKept(o: Object, rest: string)
    requires Storable(o) && GoodObject(o)
    ensures ReadObject(PackObject(o) + rest).Some?
    ensures var (r, more) := ReadObject(PackObject(o) + rest).value; Keeps(o, r) && more == rest
  {
    ObjectReads(o, rest);
    NormKeeps(o);
  }

  // ---------------------------------------------------------------- bytes

  /** A number is in two's complement, the low byte first. */
  lemma {:induction false} BytesAre(k: nat, u: nat, i: nat)
    requires i < k
    ensures Bytes(k, u)[i] as int == u / Pow256(i) % 256
  {
    if i > 0 {
      BytesAre(k - 1, u / 256, i - 1);
      DivideTwice(u, i - 1);
    }
  }

  lemma DivideTwice(u: nat, i: nat)
    ensures u / 256 / Pow256(i) == u / Pow256(i + 1)
  {
    var d := Pow256(i);
    var q, r := u / 256, u % 256;
    var a, b := q / d, q % d;
    assert u == 256 * (a * d + b) + r;
    assert u == a * (256 * d) + (256 * b + r);
    Divided(u, 256 * d, a, 256 * b + r);
  }

  lemma Divided(u: nat, d: nat, a: nat, r: nat)
    requires d > 0 && u == a * d + r && r < d
    ensures u / d == a
  {
    var q := u / d;
    assert u == q * d + u % d;
    assert (a - q) * d == a * d - q * d;
    TimesGrows(a - q, d);
  }

  lemma TimesGrows(x: int, d: int)
    requires d >= 0
    ensures (x >= 1 ==> x * d >= d) && (x <= -1 ==> x * d <= -d)
  {
  }

  lemma IntIs(n: int)
    requires -0x8000_0000 <= n < 0x8000_0000
    ensures Fits(4, n)
    ensures var u := if n < 0 then n + 0x1_0000_0000 else n;
            Int(4, n) == [(u % 256) as char, (u / 256 % 256) as char, (u / 65536 % 256) as char, (u / 16777216 % 256) as char]
  {
    Powers();
    var u := n % Pow256(4);
    assert u == if n < 0 then n + 0x1_0000_0000 else n;
    BytesAre(4, u, 0);
    BytesAre(4, u, 1);
    BytesAre(4, u, 2);
    BytesAre(4, u, 3);
    assert Pow256(1) == 256 && Pow256(3) == 256 * Pow256(2);
  }

  /** Four bytes hold exactly the numbers of 32 bits, two those of 16. */
  lemma FitsIs(n: int)
    ensures Fits(4, n) <==> -0x8000_0000 <= n < 0x8000_0000
    ensures Fits(2, n) <==> -0x8000 <= n < 0x8000
  {
    Powers();
  }
}

/** COOL values, their comparison, and the hash tables behind maps. Values are immutable here. */
module Values {
  import opened Wrappers
  import opened Buckets

  datatype Var =
    | Str(str: string)
    | Num(num: int)
    | Obj(id: int, server: int)
    | List(els: seq<Var>)
    | Map(size: nat, pairs: seq<Pair>)  // the table: its width, and its entries in traversal order
    | Err(err: int)
    | Pc(pc: int)  // a program counter, only ever found on a stack

  datatype Pair = Pair(key: Var, val: Var)

  const HASH_INIT_SIZE := 37

  // ---------------------------------------------------------------- comparison

  function Lower(c: char): char {
    if 'A' <= c <= 'Z' then c - 'A' + 'a' else c
  }

  /** String comparison ignores case. */
  predicate SameText(a: string, b: string) {
    |a| == |b| && forall i :: 0 <= i < |a| ==> Lower(a[i]) == Lower(b[i])
  }

  /** var_eq; two maps are left unequal here, comparing them is outside the model. */
  predicate VarEq(a: Var, b: Var) {
    match (a, b)
    case (Num(m), Num(n)) => m == n
    case (Pc(m), Pc(n)) => m == n
    case (Obj(i, s), Obj(j, t)) => i == j && s == t
    case (Err(e), Err(f)) => e == f
    case (Str(s), Str(t)) => SameText(s, t)
    case (List(x), List(y)) => ListEq(x, y)
    case _ => false
  }

  predicate ListEq(x: seq<Var>, y: seq<Var>) {
    if x == [] || y == [] then x == [] && y == []
    else VarEq(x[0], y[0]) && ListEq(x[1..], y[1..])
  }

  lemma {:induction false} VarEqSym(a: Var, b: Var)
    requires VarEq(a, b)
    ensures VarEq(b, a)
  {
    if a.List? { ListEqSym(a.els, b.els); }
  }

  lemma {:induction false} ListEqSym(x: seq<Var>, y: seq<Var>)
    requires ListEq(x, y)
    ensures ListEq(y, x)
  {
    if x != [] {
      VarEqSym(x[0], y[0]);
      ListEqSym(x[1..], y[1..]);
    }
  }

  lemma {:induction false} VarEqTrans(a: Var, b: Var, c: Var)
    requires VarEq(a, b) && VarEq(b, c)
    ensures VarEq(a, c)
  {
    if a.List? { ListEqTrans(a.els, b.els, c.els); }
  }

  lemma {:induction false} ListEqTrans(x: seq<Var>, y: seq<Var>, z: seq<Var>)
    requires ListEq(x, y) && ListEq(y, z)
    ensures ListEq(x, z)
  {
    if x != [] {
      VarEqTrans(x[0], y[0], z[0]);
      ListEqTrans(x[1..], y[1..], z[1..]);
    }
  }

  // ---------------------------------------------------------------- hashing

  function HashStep(h: bv32, c: char): bv32 {
    var h1 := (h << 4) + (c as int % 256) as bv32;
    var g := h1 & 0xf000_0000;
    if g != 0 then (h1 ^ (g >> 24)) ^ g else h1
  }

  function HashFrom(h: bv32, s: string): bv32
    decreases |s|
  {
    if s == [] then h else HashFrom(HashStep(h, s[0]), s[1..])
  }

  /** hash_var. The text hash is case sensitive, unlike the comparison. Bytes count as unsigned: where C takes char
      as signed this is the hash only of text below 128. */
  function HashVar(v: Var): int {
    match v
    case Str(s) => HashFrom(0, s) as int
    case Num(n) => n
    case Obj(id, _) => id
    case List(els) => |els|
    case Map(_, pairs) => |pairs|
    case Err(e) => e
    case Pc(_) => 0
  }

  function BucketOf(size: nat): Pair -> int
    requires size > 0
  {
    (p: Pair) => HashVar(p.key) % size
  }

  // ---------------------------------------------------------------- maps

  /** hash_new: a table for n entries. */
  function TableSize(n: int): (size: nat)
    ensures size > 0
  {
    if n > HASH_INIT_SIZE then n else HASH_INIT_SIZE
  }

  /** The first entry of key's chain whose key compares equal, or |pairs|. */
  function Slot(size: nat, pairs: seq<Pair>, key: Var): (k: nat)
    requires size > 0
    ensures k <= |pairs|
    ensures k < |pairs| ==> VarEq(key, pairs[k].key) && HashVar(pairs[k].key) % size == HashVar(key) % size
  {
    if pairs == [] then 0
    else if HashVar(pairs[0].key) % size == HashVar(key) % size && VarEq(key, pairs[0].key) then 0
    else 1 + Slot(size, pairs[1..], key)
  }

  function MapFind(size: nat, pairs: seq<Pair>, key: Var): Option<Var>
    requires size > 0
  {
    var k := Slot(size, pairs, key);
    if k < |pairs| then Some(pairs[k].val) else None
  }

  /** map_add: the value of an equal key is replaced, a new key goes to the tail of its chain. */
  function MapAdd(size: nat, pairs: seq<Pair>, key: Var, val: Var): seq<Pair>
    requires size > 0
  {
    var k := Slot(size, pairs, key);
    if k < |pairs| then pairs[k := pairs[k].(val := val)]
    else Append(pairs, Pair(key, val), BucketOf(size))
  }

  /** A new table filled from a sequence of entries, one map_add after the other. */
  function Rehash(size: nat, pairs: seq<Pair>): seq<Pair>
    requires size > 0
  {
    if pairs == [] then []
    else
      var n := |pairs| - 1;
      MapAdd(size, Rehash(size, pairs[..n]), pairs[n].key, pairs[n].val)
  }

  /** No two keys compare equal, and every hash is a possible index. */
  ghost predicate DistinctKeys(pairs: seq<Pair>) {
    && (forall i, j :: 0 <= i < j < |pairs| ==> !VarEq(pairs[j].key, pairs[i].key))
    && (forall i :: 0 <= i < |pairs| ==> HashVar(pairs[i].key) >= 0)
  }

  lemma {:induction false} SlotMisses(size: nat, pairs: seq<Pair>, key: Var)
    requires size > 0 && forall p :: p in pairs ==> !VarEq(key, p.key)
    ensures Slot(size, pairs, key) == |pairs|
  {
    if pairs != [] { SlotMisses(size, pairs[1..], key); }
  }

  lemma KeyIsNew(t: seq<Pair>, pairs: seq<Pair>, key: Var)
    requires multiset(t) == multiset(pairs) && forall i :: 0 <= i < |pairs| ==> !VarEq(key, pairs[i].key)
    ensures forall p :: p in t ==> !VarEq(key, p.key)
  {
    forall p | p in t ensures !VarEq(key, p.key) {
      assert p in multiset(pairs);
    }
  }

  /** Filling a new table with distinct keys keeps every entry, in bucket order. */
  lemma {:induction false} RehashKeeps(size: nat, pairs: seq<Pair>)
    requires size > 0 && DistinctKeys(pairs)
    ensures multiset(Rehash(size, pairs)) == multiset(pairs)
    ensures Sorted(Rehash(size, pairs), BucketOf(size))
  {
    if pairs != [] {
      var n := |pairs| - 1;
      var init, last := pairs[..n], pairs[n];
      RehashKeeps(size, init);
      var t := Rehash(size, init);
      KeyIsNew(t, init, last.key);
      SlotMisses(size, t, last.key);
      AppendKeeps(t, last, BucketOf(size));
      assert pairs == init + [last];
    }
  }

  lemma {:induction false} SlotFinds(size: nat, pairs: seq<Pair>, key: Var, p: Pair)
    requires size > 0 && p in pairs && VarEq(key, p.key) && HashVar(key) == HashVar(p.key)
    ensures Slot(size, pairs, key) < |pairs|
  {
    if pairs[0] != p { SlotFinds(size, pairs[1..], key, p); }
  }

  /** At most one entry of a table with distinct keys answers to a key. */
  lemma OneAnswer(pairs: seq<Pair>, key: Var, p: Pair, q: Pair)
    requires DistinctKeys(pairs) && p in pairs && q in pairs && VarEq(key, p.key) && VarEq(key, q.key)
    ensures p == q
  {
    var i :| 0 <= i < |pairs| && pairs[i] == p;
    var j :| 0 <= j < |pairs| && pairs[j] == q;
    VarEqSym(key, p.key);
    VarEqSym(key, q.key);
    VarEqTrans(p.key, key, q.key);
    VarEqTrans(q.key, key, p.key);
  }

  /** The two tables answer alike: same entries, whatever their widths and the order of chains. */
  lemma SameAnswers(size: nat, pairs: seq<Pair>, size': nat, pairs': seq<Pair>, key: Var)
    requires size > 0 && size' > 0 && DistinctKeys(pairs) && multiset(pairs) == multiset(pairs')
    requires forall p :: p in pairs && VarEq(key, p.key) ==> HashVar(key) == HashVar(p.key)
    ensures MapFind(size, pairs, key) == MapFind(size', pairs', key)
  {
    assert forall p :: p in pairs <==> p in multiset(pairs);
    assert forall p :: p in pairs' <==> p in multiset(pairs');
    var k, k' := Slot(size, pairs, key), Slot(size', pairs', key);
    if k < |pairs| {
      assert pairs[k] in pairs;
      SlotFinds(size', pairs', key, pairs[k]);
      assert pairs'[k'] in pairs';
      OneAnswer(pairs, key, pairs[k], pairs'[k']);
    } else if k' < |pairs'| {
      assert pairs'[k'] in pairs';
      SlotFinds(size, pairs, key, pairs'[k']);
    }
  }

  // ---------------------------------------------------------------- values up to chain order

  /** The value that reading v back gives: the same, with every map in a newly filled table. */
  function Norm(v: Var): Var {
    match v
    case List(els) => List(NormList(els))
    case Map(_, pairs) => Map(TableSize(|pairs|), Rehash(TableSize(|pairs|), NormPairs(pairs)))
    case _ => v
  }

  function NormList(els: seq<Var>): (r: seq<Var>)
    ensures |r| == |els|
  {
    if els == [] then [] else NormList(els[..|els| - 1]) + [Norm(els[|els| - 1])]
  }

  function NormPairs(pairs: seq<Pair>): (r: seq<Pair>)
    ensures |r| == |pairs|
  {
    if pairs == [] then [] else NormPairs(pairs[..|pairs| - 1]) + [NormPair(pairs[|pairs| - 1])]
  }

  function NormPair(p: Pair): Pair { Pair(Norm(p.key), Norm(p.val)) }

  function NormOption(o: Option<Var>): Option<Var> {
    match o case None => None case Some(v) => Some(Norm(v))
  }

  /** Map keys at every level are distinct and free of maps, and hash to an index. */
  ghost predicate GoodMaps(v: Var) {
    match v
    case List(els) => GoodList(els)
    case Map(size, pairs) => size > 0 && DistinctKeys(pairs) && GoodPairs(pairs)
    case _ => true
  }

  ghost predicate GoodList(els: seq<Var>) {
    els == [] || (GoodMaps(els[|els| - 1]) && GoodList(els[..|els| - 1]))
  }

  ghost predicate GoodPairs(pairs: seq<Pair>) {
    pairs == [] || (GoodPair(pairs[|pairs| - 1]) && GoodPairs(pairs[..|pairs| - 1]))
  }

  ghost predicate GoodPair(p: Pair) { NoMaps(p.key) && GoodMaps(p.val) }

  predicate NoMaps(v: Var) {
    match v
    case List(els) => NoMapsList(els)
    case Map(_, _) => false
    case _ => true
  }

  predicate NoMapsList(els: seq<Var>) {
    els == [] || (NoMaps(els[|els| - 1]) && NoMapsList(els[..|els| - 1]))
  }

  lemma {:induction false} NormOfKey(v: Var)
    requires NoMaps(v)
    ensures Norm(v) == v && GoodMaps(v)
  {
    if v.List? { NormOfKeys(v.els); }
  }

  lemma {:induction false} NormOfKeys(els: seq<Var>)
    requires NoMapsList(els)
    ensures NormList(els) == els && GoodList(els)
  {
    if els != [] {
      NormOfKey(els[|els| - 1]);
      NormOfKeys(els[..|els| - 1]);
    }
  }

  lemma {:induction false} NormPairsKeys(pairs: seq<Pair>)
    requires GoodPairs(pairs)
    ensures forall i :: 0 <= i < |pairs| ==> NormPairs(pairs)[i] == Pair(pairs[i].key, Norm(pairs[i].val))
  {
    if pairs != [] {
      NormOfKey(pairs[|pairs| - 1].key);
      NormPairsKeys(pairs[..|pairs| - 1]);
    }
  }

  lemma NormFind(size: nat, pairs: seq<Pair>, key: Var)
    requires size > 0 && GoodPairs(pairs)
    ensures MapFind(size, NormPairs(pairs), key) == NormOption(MapFind(size, pairs, key))
  {
    NormPairsKeys(pairs);
    SlotByKeys(size, pairs, NormPairs(pairs), key);
  }

  /** Reading a map back loses nothing: it answers every key with the value read back. */
  lemma NormMapAnswers(size: nat, pairs: seq<Pair>, key: Var)
    requires GoodMaps(Map(size, pairs))
    requires forall p :: p in pairs && VarEq(key, p.key) ==> HashVar(key) == HashVar(p.key)
    ensures var m := Norm(Map(size, pairs));
            && m.size > 0 && |m.pairs| == |pairs|
            && MapFind(m.size, m.pairs, key) == NormOption(MapFind(size, pairs, key))
  {
    var ps, size' := NormPairs(pairs), TableSize(|pairs|);
    NormPairsDistinct(pairs);
    NormPairsHashes(pairs, key);
    RehashAnswers(size, ps, size', key);
    NormFind(size, pairs, key);
    assert Norm(Map(size, pairs)) == Map(size', Rehash(size', ps));
  }

  lemma NormPairsHashes(pairs: seq<Pair>, key: Var)
    requires GoodPairs(pairs) && forall p :: p in pairs && VarEq(key, p.key) ==> HashVar(key) == HashVar(p.key)
    ensures forall p :: p in NormPairs(pairs) && VarEq(key, p.key) ==> HashVar(key) == HashVar(p.key)
  {
    NormPairsKeys(pairs);
    forall p | p in NormPairs(pairs) && VarEq(key, p.key) ensures HashVar(key) == HashVar(p.key) {
      var i :| 0 <= i < |pairs| && NormPairs(pairs)[i] == p;
      assert pairs[i] in pairs;
    }
  }

  lemma RehashAnswers(size: nat, ps: seq<Pair>, size': nat, key: Var)
    requires size > 0 && size' > 0 && DistinctKeys(ps)
    requires forall p :: p in ps && VarEq(key, p.key) ==> HashVar(key) == HashVar(p.key)
    ensures |Rehash(size', ps)| == |ps| && MapFind(size, ps, key) == MapFind(size', Rehash(size', ps), key)
  {
    RehashKeeps(size', ps);
    assert |multiset(Rehash(size', ps))| == |multiset(ps)|;
    SameAnswers(size, ps, size', Rehash(size', ps), key);
  }

  lemma NormPairsDistinct(pairs: seq<Pair>)
    requires GoodPairs(pairs) && DistinctKeys(pairs)
    ensures DistinctKeys(NormPairs(pairs))
  {
    NormPairsKeys(pairs);
    var ps := NormPairs(pairs);
    assert forall i :: 0 <= i < |ps| ==> ps[i].key == pairs[i].key;
  }

  lemma {:induction false} SlotByKeys(size: nat, pairs: seq<Pair>, pairs': seq<Pair>, key: Var)
    requires size > 0 && |pairs| == |pairs'|
    requires forall i :: 0 <= i < |pairs| ==> pairs'[i].key == pairs[i].key
    ensures Slot(size, pairs, key) == Slot(size, pairs', key)
  {
    if pairs != [] {
      assert pairs'[0].key == pairs[0].key;
      SlotByKeys(size, pairs[1..], pairs'[1..], key);
    }
  }
}

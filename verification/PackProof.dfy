/** What is packed is read back: consuming exactly the bytes written, which are as many as the size
    calculation says, and giving the same object up to the order of hash chains. */
module PackProof {
  import opened Wrappers
  import opened Buckets
  import opened Values
  import opened PackSpec

  // ---------------------------------------------------------------- numbers and strings

  lemma {:induction false} ValueOfBytes(k: nat, u: nat)
    requires u < Pow256(k)
    ensures Value(Bytes(k, u)) == u
  {
    if k > 0 {
      ValueOfBytes(k - 1, u / 256);
      assert Bytes(k, u)[1..] == Bytes(k - 1, u / 256);
    }
  }

  lemma Powers()
    ensures Pow256(2) == 65536 && Pow256(4) == 4294967296
  {
    assert Pow256(2) == 256 * Pow256(1) && Pow256(4) == 256 * Pow256(3);
  }

  lemma IntReads(k: nat, n: int, rest: string)
    requires (k == 2 || k == 4) && Fits(k, n)
    ensures ReadInt(k, Int(k, n) + rest) == Some((n, rest))
  {
    var p := Pow256(k);
    Powers();
    assert n % p == if n < 0 then n + p else n;
    ValueOfBytes(k, n % p);
    var s := Int(k, n) + rest;
    assert s[..k] == Int(k, n) && s[k..] == rest;
  }

  lemma StringReads(t: string, rest: string)
    requires Fits(4, |t|)
    ensures ReadString(PackString(t) + rest) == Some((t, rest))
  {
    IntReads(4, |t|, t + rest);
    assert PackString(t) + rest == Int(4, |t|) + (t + rest);
    assert (t + rest)[..|t|] == t && (t + rest)[|t|..] == rest;
  }

  // ---------------------------------------------------------------- values

  /** Every number fits its field, and there is no program counter. */
  predicate StorableVar(v: Var) {
    match v
    case Str(s) => Fits(4, |s|)
    case Num(n) => Fits(4, n)
    case Obj(id, server) => Fits(4, id) && Fits(2, server)
    case List(els) => StorableList(els)
    case Map(_, pairs) => Fits(4, |pairs|) && StorablePairs(pairs)
    case Err(e) => Fits(4, e)
    case Pc(_) => false
  }

  predicate StorableList(els: seq<Var>)
    decreases els, 1
  {
    Fits(4, |els|) && StorableEls(els)
  }

  predicate StorableEls(els: seq<Var>)
    decreases els, 0
  {
    els == [] || (StorableVar(els[|els| - 1]) && StorableEls(els[..|els| - 1]))
  }

  predicate StorablePairs(pairs: seq<Pair>) {
    pairs == [] || (StorablePair(pairs[|pairs| - 1]) && StorablePairs(pairs[..|pairs| - 1]))
  }

  predicate StorablePair(p: Pair) { StorableVar(p.key) && StorableVar(p.val) }

  /** A value is read back as itself, maps in new tables, and nothing after it is touched. */
  lemma {:induction false} VarReads(v: Var, rest: string)
    requires StorableVar(v)
    ensures ReadVar(PackVar(v) + rest) == Some((Norm(v), rest))
    decreases v, 1
  {
    assert (PackVar(v) + rest)[1..] == Payload(v) + rest;
    PayloadReads(v, rest);
  }

  lemma {:induction false} PayloadReads(v: Var, rest: string)
    requires StorableVar(v)
    ensures ReadPayload(Tag(v), Payload(v) + rest) == Some((Norm(v), rest))
    decreases v, 0
  {
    match v {
      case Str(t) => StringReads(t, rest);
      case Num(n) => IntReads(4, n, rest);
      case Obj(id, server) =>
        assert Payload(v) + rest == Int(4, id) + (Int(2, server) + rest);
        IntReads(4, id, Int(2, server) + rest);
        IntReads(2, server, rest);
      case List(els) => ListReads(els, rest);
      case Map(_, pairs) =>
        assert Payload(v) + rest == Int(4, |pairs|) + (PackPairs(pairs) + rest);
        IntReads(4, |pairs|, PackPairs(pairs) + rest);
        PairsRead(pairs, rest);
      case Err(e) => IntReads(4, e, rest);
    }
  }

  lemma {:induction false} ListReads(els: seq<Var>, rest: string)
    requires StorableList(els)
    ensures ReadList(PackList(els) + rest) == Some((NormList(els), rest))
    decreases els, 1
  {
    assert PackList(els) + rest == Int(4, |els|) + (PackEls(els) + rest);
    IntReads(4, |els|, PackEls(els) + rest);
    ElsRead(els, rest);
  }

  lemma {:induction false} ElsRead(els: seq<Var>, rest: string)
    requires StorableEls(els)
    ensures ReadEls(|els|, PackEls(els) + rest) == Some((NormList(els), rest))
    decreases els, 0
  {
    if els == [] {
      assert PackEls(els) + rest == rest;
    } else {
      var n := |els| - 1;
      assert PackEls(els) + rest == PackEls(els[..n]) + (PackVar(els[n]) + rest);
      ElsRead(els[..n], PackVar(els[n]) + rest);
      VarReads(els[n], rest);
    }
  }

  lemma {:induction false} PairsRead(pairs: seq<Pair>, rest: string)
    requires StorablePairs(pairs)
    ensures ReadPairs(|pairs|, PackPairs(pairs) + rest) == Some((NormPairs(pairs), rest))
    decreases pairs, 0
  {
    if pairs == [] {
      assert PackPairs(pairs) + rest == rest;
    } else {
      var n := |pairs| - 1;
      assert PackPairs(pairs) + rest == PackPairs(pairs[..n]) + (PackPair(pairs[n]) + rest);
      PairsRead(pairs[..n], PackPair(pairs[n]) + rest);
      PairReads(pairs[n], rest);
    }
  }

  lemma {:induction false} PairReads(p: Pair, rest: string)
    requires StorablePair(p)
    ensures ReadPair(PackPair(p) + rest) == Some((NormPair(p), rest))
    decreases p, 0
  {
    assert PackPair(p) + rest == PackVar(p.key) + (PackVar(p.val) + rest);
    VarReads(p.key, PackVar(p.val) + rest);
    VarReads(p.val, rest);
  }

  // ---------------------------------------------------------------- parts of an object

  /** r reads back what w writes for x, giving f(x). */
  ghost predicate ReadsBack<T>(w: T -> string, r: Reader<T>, f: T -> T, x: T) {
    forall rest :: r(w(x) + rest) == Some((f(x), rest))
  }

  function Image<T>(xs: seq<T>, f: T -> T): (ys: seq<T>)
    ensures |ys| == |xs| && forall i :: 0 <= i < |xs| ==> ys[i] == f(xs[i])
  {
    if xs == [] then [] else Image(xs[..|xs| - 1], f) + [f(xs[|xs| - 1])]
  }

  lemma {:induction false} AllRead<T>(xs: seq<T>, w: T -> string, r: Reader<T>, f: T -> T, rest: string)
    requires forall x :: x in xs ==> ReadsBack(w, r, f, x)
    ensures ReadN(|xs|, WriteAll(xs, w) + rest, r) == Some((Image(xs, f), rest))
  {
    if xs == [] {
      assert WriteAll(xs, w) + rest == rest;
    } else {
      var n := |xs| - 1;
      assert WriteAll(xs, w) + rest == WriteAll(xs[..n], w) + (w(xs[n]) + rest);
      assert ReadsBack(w, r, f, xs[n]);
      AllRead(xs[..n], w, r, f, w(xs[n]) + rest);
    }
  }

  lemma CountedReads<T>(xs: seq<T>, w: T -> string, r: Reader<T>, f: T -> T, rest: string)
    requires Fits(4, |xs|) && forall x :: x in xs ==> ReadsBack(w, r, f, x)
    ensures ReadCounted(Int(4, |xs|) + WriteAll(xs, w) + rest, r) == Some((Image(xs, f), rest))
  {
    IntReads(4, |xs|, WriteAll(xs, w) + rest);
    assert Int(4, |xs|) + WriteAll(xs, w) + rest == Int(4, |xs|) + (WriteAll(xs, w) + rest);
    AllRead(xs, w, r, f, rest);
  }

  function Same<T>(x: T): T { x }

  lemma {:induction false} ImageOfSame<T>(xs: seq<T>)
    ensures Image(xs, Same) == xs
  {
  }

  function NormVardef(v: Vardef): Vardef { v.(value := Norm(v.value)) }

  function NormMethod(m: Method): Method { m.(vars := Image(m.vars, NormVardef)) }

  predicate StorableVardef(v: Vardef) { Fits(4, v.name) && StorableVar(v.value) }

  predicate StorableVerb(vb: Verbdef) { Fits(4, vb.verb) && Fits(4, vb.prep) && Fits(4, vb.meth) }

  predicate StorableLock(l: Lock) { Fits(4, |l.name|) && Fits(4, l.addedBy) }

  predicate StorableSymbol(y: Symbol) { y.Used? ==> y.ref != 0 && Fits(4, y.ref) && Fits(4, |y.text|) }

  predicate StorableMethod(m: Method) {
    && Fits(4, m.name) && Fits(4, |m.code|) && Fits(4, |m.vars|) && |m.ehandler| == NERRS
    && (forall v :: v in m.vars ==> StorableVardef(v))
    && (forall i :: i in m.ehandler ==> Fits(4, i))
    && (forall i :: i in m.code ==> Fits(4, i))
  }

  predicate Storable(o: Object) {
    && Fits(4, o.id) && Fits(2, o.server) && StorableList(o.parents)
    && Fits(4, o.stSize) && Fits(4, |o.symbols|) && (forall y :: y in o.symbols ==> StorableSymbol(y))
    && Fits(4, |Entries(o.methods)|) && (forall m :: m in Entries(o.methods) ==> StorableMethod(m))
    && Fits(4, |o.verbs|) && (forall vb :: vb in o.verbs ==> StorableVerb(vb))
    && Fits(4, |Entries(o.vars)|) && (forall v :: v in Entries(o.vars) ==> StorableVardef(v))
    && Fits(4, |o.locks|) && (forall l :: l in o.locks ==> StorableLock(l))
  }

  lemma VardefReads(v: Vardef)
    requires StorableVardef(v)
    ensures ReadsBack(PackVardef, ReadVardef, NormVardef, v)
  {
    forall rest ensures ReadVardef(PackVardef(v) + rest) == Some((NormVardef(v), rest)) {
      assert PackVardef(v) + rest == Int(4, v.name) + (PackVar(v.value) + rest);
      IntReads(4, v.name, PackVar(v.value) + rest);
      VarReads(v.value, rest);
    }
  }

  lemma VardefsRead(vs: seq<Vardef>, rest: string)
    requires Fits(4, |vs|) && forall v :: v in vs ==> StorableVardef(v)
    ensures ReadCounted(PackVardefs(vs) + rest, ReadVardef) == Some((Image(vs, NormVardef), rest))
  {
    forall v | v in vs ensures ReadsBack(PackVardef, ReadVardef, NormVardef, v) { VardefReads(v); }
    CountedReads(vs, PackVardef, ReadVardef, NormVardef, rest);
  }

  lemma VerbsRead(vbs: seq<Verbdef>, rest: string)
    requires Fits(4, |vbs|) && forall vb :: vb in vbs ==> StorableVerb(vb)
    ensures ReadCounted(PackVerbs(vbs) + rest, ReadVerb) == Some((vbs, rest))
  {
    forall vb | vb in vbs ensures ReadsBack(PackVerb, ReadVerb, Same, vb) {
      forall rest: string ensures ReadVerb(PackVerb(vb) + rest) == Some((vb, rest)) {
        var tail := Int(4, vb.meth) + rest;
        assert PackVerb(vb) + rest == Int(4, vb.verb) + (Int(4, vb.prep) + tail);
        IntReads(4, vb.verb, Int(4, vb.prep) + tail);
        IntReads(4, vb.prep, tail);
        IntReads(4, vb.meth, rest);
      }
    }
    CountedReads(vbs, PackVerb, ReadVerb, Same, rest);
    ImageOfSame(vbs);
  }

  lemma LocksRead(ls: seq<Lock>, rest: string)
    requires Fits(4, |ls|) && forall l :: l in ls ==> StorableLock(l)
    ensures ReadCounted(PackLocks(ls) + rest, ReadLock) == Some((ls, rest))
  {
    forall l | l in ls ensures ReadsBack(PackLock, ReadLock, Same, l) {
      forall rest: string ensures ReadLock(PackLock(l) + rest) == Some((l, rest)) {
        assert PackLock(l) + rest == PackString(l.name) + (Int(4, l.addedBy) + rest);
        StringReads(l.name, Int(4, l.addedBy) + rest);
        IntReads(4, l.addedBy, rest);
      }
    }
    CountedReads(ls, PackLock, ReadLock, Same, rest);
    ImageOfSame(ls);
  }

  lemma SymbolsRead(o: Object, rest: string)
    requires Fits(4, o.stSize) && Fits(4, |o.symbols|) && forall y :: y in o.symbols ==> StorableSymbol(y)
    ensures ReadSymbols(PackSymbols(o) + rest) == Some(((o.stSize, o.symbols), rest))
  {
    forall y | y in o.symbols ensures ReadsBack(PackSymbol, ReadSymbol, Same, y) {
      forall rest: string ensures ReadSymbol(PackSymbol(y) + rest) == Some((y, rest)) {
        match y {
          case Free => IntReads(4, 0, rest);
          case Used(ref, text) =>
            assert PackSymbol(y) + rest == Int(4, ref) + (PackString(text) + rest);
            IntReads(4, ref, PackString(text) + rest);
            StringReads(text, rest);
        }
      }
    }
    var tail := WriteAll(o.symbols, PackSymbol) + rest;
    assert PackSymbols(o) + rest == Int(4, |o.symbols|) + (Int(4, o.stSize) + tail);
    IntReads(4, |o.symbols|, Int(4, o.stSize) + tail);
    IntReads(4, o.stSize, tail);
    AllRead(o.symbols, PackSymbol, ReadSymbol, Same, rest);
    ImageOfSame(o.symbols);
  }

  lemma WordsRead(ws: seq<int>, rest: string)
    requires forall i :: i in ws ==> Fits(4, i)
    ensures ReadN(|ws|, WriteAll(ws, Word) + rest, ReadWord) == Some((ws, rest))
  {
    forall i | i in ws ensures ReadsBack(Word, ReadWord, Same, i) {
      forall rest: string ensures ReadWord(Word(i) + rest) == Some((i, rest)) { IntReads(4, i, rest); }
    }
    AllRead(ws, Word, ReadWord, Same, rest);
    ImageOfSame(ws);
  }

  lemma MethodBodyReads(m: Method, rest: string)
    requires StorableMethod(m)
    ensures ReadMethodBody(m.name, m.blocked, |m.code|, PackMethodBody(m) + rest) == Some((NormMethod(m), rest))
  {
    var t1 := WriteAll(m.code, Word) + rest;
    var t2 := PackVardefs(m.vars) + t1;
    assert PackMethodBody(m) + rest == WriteAll(m.ehandler, Word) + t2;
    WordsRead(m.ehandler, t2);
    VardefsRead(m.vars, t1);
    WordsRead(m.code, rest);
  }

  lemma MethodReadsBefore(m: Method, rest: string)
    requires StorableMethod(m)
    ensures ReadMethod(PackMethod(m) + rest) == Some((NormMethod(m), rest))
  {
    hide ReadMethodBody, PackMethodBody;
    var t1 := PackMethodBody(m) + rest;
    var t2 := Int(4, |m.code|) + t1;
    FourThen(Int(4, m.name), Flag(m.blocked), Int(4, |m.code|), PackMethodBody(m), rest);
    IntReads(4, m.name, Flag(m.blocked) + t2);
    assert (Flag(m.blocked) + t2)[1..] == t2;
    IntReads(4, |m.code|, t1);
    MethodBodyReads(m, rest);
  }

  lemma MethodReads(m: Method)
    requires StorableMethod(m)
    ensures ReadsBack(PackMethod, ReadMethod, NormMethod, m)
  {
    forall rest ensures ReadMethod(PackMethod(m) + rest) == Some((NormMethod(m), rest)) { MethodReadsBefore(m, rest); }
  }

  lemma MethodsRead(ms: seq<Method>, rest: string)
    requires Fits(4, |ms|) && forall m :: m in ms ==> StorableMethod(m)
    ensures ReadCounted(PackMethods(ms) + rest, ReadMethod) == Some((Image(ms, NormMethod), rest))
  {
    forall m | m in ms ensures ReadsBack(PackMethod, ReadMethod, NormMethod, m) { MethodReads(m); }
    CountedReads(ms, PackMethod, ReadMethod, NormMethod, rest);
  }

  // ---------------------------------------------------------------- objects

  /** The object that reading o back gives. */
  function NormObject(o: Object): Object {
    o.(parents := NormList(o.parents),
       methods := Some(MethodTable(o.symbols, Image(Entries(o.methods), NormMethod))),
       vars := Some(VarTable(o.symbols, Image(Entries(o.vars), NormVardef))))
  }

  lemma HeadReads(o: Object, rest: string)
    requires Storable(o)
    ensures ReadHead(PackHead(o) + rest) ==
            Some((Object(o.id, o.server, NormList(o.parents), o.stSize, o.symbols, None, [], None, []), rest))
  {
    var t2 := PackSymbols(o) + rest;
    var t1 := PackList(o.parents) + t2;
    assert PackHead(o) + rest == Int(4, o.id) + (Int(2, o.server) + t1);
    IntReads(4, o.id, Int(2, o.server) + t1);
    IntReads(2, o.server, t1);
    ListReads(o.parents, t2);
    SymbolsRead(o, rest);
  }

  lemma FourThen(a: string, b: string, c: string, d: string, rest: string)
    ensures (a + (b + (c + d))) + rest == a + (b + (c + (d + rest)))
  {
  }

  lemma TablesRead(o: Object, o': Object, rest: string)
    requires Storable(o) && o'.symbols == o.symbols
    ensures ReadTables(o', PackTables(o) + rest) ==
            Some((o'.(methods := NormObject(o).methods, verbs := o.verbs, vars := NormObject(o).vars, locks := o.locks),
                  rest))
  {
    var t3 := PackLocks(o.locks) + rest;
    var t2 := PackVardefs(Entries(o.vars)) + t3;
    var t1 := PackVerbs(o.verbs) + t2;
    FourThen(PackMethods(Entries(o.methods)), PackVerbs(o.verbs), PackVardefs(Entries(o.vars)), PackLocks(o.locks), rest);
    MethodsRead(Entries(o.methods), t1);
    VerbsRead(o.verbs, t2);
    VardefsRead(Entries(o.vars), t3);
    LocksRead(o.locks, rest);
  }

  /** Unpacking reads back what packing wrote, whatever follows it in the file. */
  lemma ObjectReads(o: Object, rest: string)
    requires Storable(o)
    ensures ReadObject(PackObject(o) + rest) == Some((NormObject(o), rest))
  {
    assert PackObject(o) + rest == PackHead(o) + (PackTables(o) + rest);
    HeadReads(o, PackTables(o) + rest);
    TablesRead(o, Object(o.id, o.server, NormList(o.parents), o.stSize, o.symbols, None, [], None, []), rest);
  }

  // ---------------------------------------------------------------- sizes

  /** How many program counters a value holds; each is written but not counted by size_var. */
  function Pcs(v: Var): nat {
    match v
    case List(els) => PcsEls(els)
    case Map(_, pairs) => PcsPairs(pairs)
    case Pc(_) => 1
    case _ => 0
  }

  function PcsEls(els: seq<Var>): nat {
    if els == [] then 0 else Pcs(els[|els| - 1]) + PcsEls(els[..|els| - 1])
  }

  function PcsPairs(pairs: seq<Pair>): nat {
    if pairs == [] then 0 else PcsPair(pairs[|pairs| - 1]) + PcsPairs(pairs[..|pairs| - 1])
  }

  function PcsPair(p: Pair): nat { Pcs(p.key) + Pcs(p.val) }

  function PcsVardef(v: Vardef): nat { Pcs(v.value) }

  function PcsMethod(m: Method): nat { SumAll(m.vars, PcsVardef) }

  function PcsObject(o: Object): nat {
    PcsEls(o.parents) + SumAll(Entries(o.methods), PcsMethod) + SumAll(Entries(o.vars), PcsVardef)
  }

  lemma {:induction false} VarSize(v: Var)
    ensures |PackVar(v)| == SizeVar(v) + Pcs(v)
    decreases v, 0
  {
    match v {
      case List(els) =>
        ElsSize(els);
        assert |Payload(v)| == 4 + |PackEls(els)|;
      case Map(_, pairs) => PairsSize(pairs);
      case _ =>
    }
  }

  lemma {:induction false} ElsSize(els: seq<Var>)
    ensures |PackEls(els)| == SizeEls(els) + PcsEls(els)
    decreases els, 0
  {
    if els != [] {
      VarSize(els[|els| - 1]);
      ElsSize(els[..|els| - 1]);
    }
  }

  lemma {:induction false} PairsSize(pairs: seq<Pair>)
    ensures |PackPairs(pairs)| == SizePairs(pairs) + PcsPairs(pairs)
    decreases pairs, 0
  {
    if pairs != [] {
      PairSize(pairs[|pairs| - 1]);
      PairsSize(pairs[..|pairs| - 1]);
    }
  }

  lemma {:induction false} PairSize(p: Pair)
    ensures |PackPair(p)| == SizePair(p) + PcsPair(p)
    decreases p, 0
  {
    VarSize(p.key);
    VarSize(p.val);
  }

  lemma {:induction false} AllSize<T>(xs: seq<T>, w: T -> string, sz: T -> nat, pcs: T -> nat)
    requires forall x :: x in xs ==> |w(x)| == sz(x) + pcs(x)
    ensures |WriteAll(xs, w)| == SumAll(xs, sz) + SumAll(xs, pcs)
  {
    if xs != [] { AllSize(xs[..|xs| - 1], w, sz, pcs); }
  }

  function Zero<T>(x: T): nat { 0 }

  lemma {:induction false} SumOfZero<T>(xs: seq<T>)
    ensures SumAll(xs, Zero) == 0
  {
    if xs != [] { SumOfZero(xs[..|xs| - 1]); }
  }

  lemma {:induction false} WordsSize(ws: seq<int>)
    ensures |WriteAll(ws, Word)| == 4 * |ws|
  {
    if ws != [] { WordsSize(ws[..|ws| - 1]); }
  }

  lemma VardefsSize(vs: seq<Vardef>)
    ensures |PackVardefs(vs)| == 4 + SizeVardefs(vs) + SumAll(vs, PcsVardef)
  {
    forall v | v in vs ensures |PackVardef(v)| == SizeVardef(v) + PcsVardef(v) { VarSize(v.value); }
    AllSize(vs, PackVardef, SizeVardef, PcsVardef);
  }

  lemma MethodSize(m: Method)
    requires |m.ehandler| == NERRS
    ensures |PackMethod(m)| == SizeMethod(m) + PcsMethod(m)
  {
    WordsSize(m.ehandler);
    WordsSize(m.code);
    VardefsSize(m.vars);
  }

  lemma FlatSize<T>(xs: seq<T>, w: T -> string, sz: T -> nat)
    requires forall x :: x in xs ==> |w(x)| == sz(x)
    ensures |WriteAll(xs, w)| == SumAll(xs, sz)
  {
    AllSize(xs, w, sz, Zero);
    SumOfZero(xs);
  }

  /** Packing writes one byte more than size_object says for every program counter, and no other. */
  lemma ObjectSize(o: Object)
    requires forall m :: m in Entries(o.methods) ==> |m.ehandler| == NERRS
    ensures |PackObject(o)| == SizeObject(o) + PcsObject(o)
  {
    ElsSize(o.parents);
    FlatSize(o.symbols, PackSymbol, SizeSymbol);
    forall m | m in Entries(o.methods) ensures |PackMethod(m)| == SizeMethod(m) + PcsMethod(m) { MethodSize(m); }
    AllSize(Entries(o.methods), PackMethod, SizeMethod, PcsMethod);
    FlatSize(o.verbs, PackVerb, SizeVerb);
    VardefsSize(Entries(o.vars));
    FlatSize(o.locks, PackLock, SizeLock);
  }

  lemma {:induction false} NoPcs(v: Var)
    requires StorableVar(v)
    ensures Pcs(v) == 0
    decreases v, 0
  {
    match v {
      case List(els) => NoPcsEls(els);
      case Map(_, pairs) => NoPcsPairs(pairs);
      case _ =>
    }
  }

  lemma {:induction false} NoPcsEls(els: seq<Var>)
    requires StorableEls(els)
    ensures PcsEls(els) == 0
    decreases els, 0
  {
    if els != [] {
      NoPcs(els[|els| - 1]);
      NoPcsEls(els[..|els| - 1]);
    }
  }

  lemma {:induction false} NoPcsPairs(pairs: seq<Pair>)
    requires StorablePairs(pairs)
    ensures PcsPairs(pairs) == 0
    decreases pairs, 0
  {
    if pairs != [] {
      NoPcsPair(pairs[|pairs| - 1]);
      NoPcsPairs(pairs[..|pairs| - 1]);
    }
  }

  lemma {:induction false} NoPcsPair(p: Pair)
    requires StorablePair(p)
    ensures PcsPair(p) == 0
    decreases p, 0
  {
    NoPcs(p.key);
    NoPcs(p.val);
  }

  lemma {:induction false} NoPcsVars(vs: seq<Vardef>)
    requires forall v :: v in vs ==> StorableVardef(v)
    ensures SumAll(vs, PcsVardef) == 0
  {
    if vs != [] {
      assert StorableVardef(vs[|vs| - 1]);
      NoPcs(vs[|vs| - 1].value);
      NoPcsVars(vs[..|vs| - 1]);
    }
  }

  lemma {:induction false} NoPcsMethods(ms: seq<Method>)
    requires forall m :: m in ms ==> StorableMethod(m)
    ensures SumAll(ms, PcsMethod) == 0
  {
    if ms != [] {
      assert StorableMethod(ms[|ms| - 1]);
      NoPcsVars(ms[|ms| - 1].vars);
      NoPcsMethods(ms[..|ms| - 1]);
    }
  }

  /** An object the database stores takes exactly the room it was given. */
  lemma StorableSize(o: Object)
    requires Storable(o)
    ensures |PackObject(o)| == SizeObject(o) && SizeObject(o) >= 34
  {
    ObjectSize(o);
    NoPcsEls(o.parents);
    NoPcsMethods(Entries(o.methods));
    NoPcsVars(Entries(o.vars));
  }

  // ---------------------------------------------------------------- equal up to chain order

  lemma {:induction false} MethodsAdded(symbols: seq<Symbol>, size: nat, ms: seq<Method>)
    requires size > 0
    ensures multiset(AddMethods(symbols, size, ms)) == multiset(ms)
    ensures Sorted(AddMethods(symbols, size, ms), MethodBucket(symbols, size))
  {
    hide Append, MethodBucket;
    if ms != [] {
      var n := |ms| - 1;
      MethodsAdded(symbols, size, ms[..n]);
      AppendKeeps(AddMethods(symbols, size, ms[..n]), ms[n], MethodBucket(symbols, size));
      assert ms == ms[..n] + [ms[n]];
    }
  }

  ghost predicate DistinctNames(vs: seq<Vardef>) {
    forall i, j :: 0 <= i < j < |vs| ==> vs[i].name != vs[j].name
  }

  lemma NameIsNew(t: seq<Vardef>, vs: seq<Vardef>, name: int)
    requires multiset(t) == multiset(vs) && forall i :: 0 <= i < |vs| ==> vs[i].name != name
    ensures !HasName(t, name)
  {
    forall i | 0 <= i < |t| ensures t[i].name != name {
      assert t[i] in multiset(vs);
    }
  }

  lemma {:induction false} GlobalsAdded(symbols: seq<Symbol>, size: nat, vs: seq<Vardef>)
    requires size > 0 && DistinctNames(vs)
    ensures multiset(AddGlobals(symbols, size, vs)) == multiset(vs)
    ensures Sorted(AddGlobals(symbols, size, vs), VarBucket(symbols, size))
  {
    if vs != [] {
      var n := |vs| - 1;
      var init, v := vs[..n], vs[n];
      var t := AddGlobals(symbols, size, init);
      GlobalsAdded(symbols, size, init);
      NameIsNew(t, init, v.name);
      PrependKeeps(t, v, VarBucket(symbols, size));
      assert vs == init + [v];
    }
  }

  /** What is read back has the same methods and variables, each once and in its own bucket. */
  lemma TablesKept(o: Object)
    requires DistinctNames(Entries(o.vars))
    ensures var ms := Entries(NormObject(o).methods);
            && multiset(ms) == multiset(Image(Entries(o.methods), NormMethod))
            && Sorted(ms, MethodBucket(o.symbols, NormObject(o).methods.value.size))
    ensures var vs := Entries(NormObject(o).vars);
            && multiset(vs) == multiset(Image(Entries(o.vars), NormVardef))
            && Sorted(vs, VarBucket(o.symbols, NormObject(o).vars.value.size))
  {
    var ms, vs := Image(Entries(o.methods), NormMethod), Image(Entries(o.vars), NormVardef);
    MethodsAdded(o.symbols, TableSize(|ms| / HASH_INIT_LOAD), ms);
    assert forall i :: 0 <= i < |vs| ==> vs[i].name == Entries(o.vars)[i].name;
    GlobalsAdded(o.symbols, TableSize(|vs| / HASH_INIT_LOAD), vs);
  }
}

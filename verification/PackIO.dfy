/** dbpack.c, dbsize.c and dbunpack.c as they run: loops over chains and arrays, on a file. */
module PackIO {
  import opened Wrappers
  import Buckets
  import opened Values
  import opened PackSpec

  /** The bytes of d with a in place from p on; a gap before p is filled with zeros. */
  function Overwrite(d: string, p: nat, a: string): string {
    seq(if |d| < p + |a| then p + |a| else |d|, i requires i >= 0 =>
      if p <= i < p + |a| then a[i - p] else if i < |d| then d[i] else 0 as char)
  }

  /** An open file: its bytes, where the next one is read, and what was written since the seek. */
  class Stream {
    var data: string
    var pos: nat
    var out: string

    constructor (data: string)
      ensures this.data == data && pos == 0 && out == []
    {
      this.data, pos, out := data, 0, [];
    }

    method Seek(p: nat)
      modifies `pos, `out
      ensures pos == p && out == []
    {
      pos, out := p, [];
    }

    method Write(a: string)
      modifies `out
      ensures out == old(out) + a
    {
      out := out + a;
    }

    /** fflush: what was written takes its place in the file. */
    method Flush()
      modifies this
      ensures data == Overwrite(old(data), old(pos), old(out)) && pos == old(pos) + |old(out)| && out == []
    {
      data := Overwrite(data, pos, out);
      pos, out := pos + |out|, [];
    }

    /** What is left to read. */
    ghost function Rest(): string
      reads `data, `pos
    {
      if pos <= |data| then data[pos..] else []
    }

    method Read(n: nat) returns (a: string)
      requires n <= |Rest()|
      modifies `pos
      ensures a == old(Rest())[..n] && Rest() == old(Rest())[n..]
    {
      if n == 0 {
        return [];
      }
      a := data[pos..pos + n];
      pos := pos + n;
    }
  }

  lemma Assoc(w: string, a: string, b: string)
    ensures (w + a) + b == w + (a + b)
  {
  }

  lemma Chain3(w: string, a: string, b: string, c: string)
    ensures ((w + a) + b) + c == w + (a + (b + c))
  {
    Assoc(w + a, b, c);
    Assoc(w, a, b + c);
  }

  lemma Chain4(w: string, a: string, b: string, c: string, d: string)
    ensures (((w + a) + b) + c) + d == w + (a + (b + (c + d)))
  {
    Assoc((w + a) + b, c, d);
    Chain3(w, a, b, c + d);
  }

  /** A loop that writes entries: after one more of them. */
  lemma WriteStep<T>(out: string, xs: seq<T>, i: nat, w: T -> string)
    requires i < |xs|
    ensures (out + WriteAll(xs[..i], w)) + w(xs[i]) == out + WriteAll(xs[..i + 1], w)
  {
    assert xs[..i + 1][..i] == xs[..i];
    Assoc(out, WriteAll(xs[..i], w), w(xs[i]));
  }

  lemma {:induction false} WriteDone<T>(out: string, xs: seq<T>, w: T -> string)
    ensures out + WriteAll(xs[..0], w) == out && WriteAll(xs[..|xs|], w) == WriteAll(xs, w)
  {
    assert xs[..|xs|] == xs;
  }

  /** A loop that reads entries can always read the next one. */
  lemma {:induction false} CanRead<T>(n: nat, i: nat, s: string, rd: Reader<T>)
    requires i < n && ReadN(n, s, rd).Some?
    ensures ReadN(i, s, rd).Some? && rd(ReadN(i, s, rd).value.1).Some?
  {
    if i < n - 1 { CanRead(n - 1, i, s, rd); }
  }

  lemma ReadMore<T>(i: nat, s: string, rd: Reader<T>, xs: seq<T>, s1: string, x: T, s2: string)
    requires ReadN(i, s, rd) == Some((xs, s1)) && rd(s1) == Some((x, s2))
    ensures ReadN(i + 1, s, rd) == Some((xs + [x], s2))
  {
  }

  // ---------------------------------------------------------------- writing

  method WriteVar(v: Var, f: Stream)
    modifies f`out
    ensures f.out == old(f.out) + PackVar(v)
    decreases v, 2
  {
    f.Write([Tag(v) as char]);
    WritePayload(v, f);
    Assoc(old(f.out), [Tag(v) as char], Payload(v));
  }

  method WritePayload(v: Var, f: Stream)
    modifies f`out
    ensures f.out == old(f.out) + Payload(v)
    decreases v, 1
  {
    match v {
      case Str(s) => WriteString(s, f);
      case Num(n) => f.Write(Int(4, n));
      case Obj(id, server) =>
        f.Write(Int(4, id));
        f.Write(Int(2, server));
        Assoc(old(f.out), Int(4, id), Int(2, server));
      case List(els) => WriteList(els, f);
      case Map(_, pairs) => WriteMap(pairs, f);
      case Err(e) => f.Write(Int(4, e));
      case Pc(_) => assert old(f.out) + [] == old(f.out);
    }
  }

  method WriteString(s: string, f: Stream)
    modifies f`out
    ensures f.out == old(f.out) + PackString(s)
  {
    f.Write(Int(4, |s|));
    f.Write(s);
    Assoc(old(f.out), Int(4, |s|), s);
  }

  lemma ElsStep(out: string, els: seq<Var>, i: nat)
    requires i < |els|
    ensures (out + PackEls(els[..i])) + PackVar(els[i]) == out + PackEls(els[..i + 1])
  {
    assert els[..i + 1][..i] == els[..i];
    Assoc(out, PackEls(els[..i]), PackVar(els[i]));
  }

  method WriteList(els: seq<Var>, f: Stream)
    modifies f`out
    ensures f.out == old(f.out) + PackList(els)
    decreases els, 1
  {
    f.Write(Int(4, |els|));
    ghost var start := f.out;
    assert start + PackEls(els[..0]) == start;
    var i := 0;
    while i < |els|
      invariant i <= |els| && f.out == start + PackEls(els[..i])
    {
      ElsStep(start, els, i);
      WriteVar(els[i], f);
      i := i + 1;
    }
    assert els[..i] == els;
    Assoc(old(f.out), Int(4, |els|), PackEls(els));
  }

  lemma PairsStep(out: string, pairs: seq<Pair>, i: nat)
    requires i < |pairs|
    ensures (out + PackPairs(pairs[..i])) + PackPair(pairs[i]) == out + PackPairs(pairs[..i + 1])
  {
    assert pairs[..i + 1][..i] == pairs[..i];
    Assoc(out, PackPairs(pairs[..i]), PackPair(pairs[i]));
  }

  method WriteMap(pairs: seq<Pair>, f: Stream)
    modifies f`out
    ensures f.out == old(f.out) + (Int(4, |pairs|) + PackPairs(pairs))
    decreases pairs, 1
  {
    f.Write(Int(4, |pairs|));
    ghost var start := f.out;
    assert start + PackPairs(pairs[..0]) == start;
    var i := 0;
    while i < |pairs|
      invariant i <= |pairs| && f.out == start + PackPairs(pairs[..i])
    {
      PairsStep(start, pairs, i);
      WritePair(pairs[i], f);
      i := i + 1;
    }
    assert pairs[..i] == pairs;
    Assoc(old(f.out), Int(4, |pairs|), PackPairs(pairs));
  }

  method WritePair(p: Pair, f: Stream)
    modifies f`out
    ensures f.out == old(f.out) + PackPair(p)
    decreases p, 0
  {
    WriteVar(p.key, f);
    WriteVar(p.val, f);
    Assoc(old(f.out), PackVar(p.key), PackVar(p.val));
  }

  method WriteWord(n: int, f: Stream)
    modifies f`out
    ensures f.out == old(f.out) + Word(n)
  {
    f.Write(Int(4, n));
  }

  method WriteWords(ws: seq<int>, f: Stream)
    modifies f`out
    ensures f.out == old(f.out) + WriteAll(ws, Word)
  {
    ghost var start := f.out;
    WriteDone(start, ws, Word);
    var i := 0;
    while i < |ws|
      invariant i <= |ws|
      invariant f.out == start + WriteAll(ws[..i], Word)
    {
      WriteStep(start, ws, i, Word);
      WriteWord(ws[i], f);
      i := i + 1;
    }
  }

  method WriteVardef(v: Vardef, f: Stream)
    modifies f`out
    ensures f.out == old(f.out) + PackVardef(v)
  {
    f.Write(Int(4, v.name));
    WriteVar(v.value, f);
    Assoc(old(f.out), Int(4, v.name), PackVar(v.value));
  }

  method WriteVardefs(vs: seq<Vardef>, f: Stream)
    modifies f`out
    ensures f.out == old(f.out) + PackVardefs(vs)
  {
    f.Write(Int(4, |vs|));
    ghost var start := f.out;
    WriteDone(start, vs, PackVardef);
    var i := 0;
    while i < |vs|
      invariant i <= |vs|
      invariant f.out == start + WriteAll(vs[..i], PackVardef)
    {
      WriteStep(start, vs, i, PackVardef);
      WriteVardef(vs[i], f);
      i := i + 1;
    }
    Assoc(old(f.out), Int(4, |vs|), WriteAll(vs, PackVardef));
  }

  method WriteMethod(m: Method, f: Stream)
    modifies f`out
    ensures f.out == old(f.out) + PackMethod(m)
  {
    f.Write(Int(4, m.name));
    f.Write(Flag(m.blocked));
    f.Write(Int(4, |m.code|));
    WriteMethodBody(m, f);
    Chain4(old(f.out), Int(4, m.name), Flag(m.blocked), Int(4, |m.code|), PackMethodBody(m));
  }

  method WriteMethodBody(m: Method, f: Stream)
    modifies f`out
    ensures f.out == old(f.out) + PackMethodBody(m)
  {
    WriteWords(m.ehandler, f);
    WriteVardefs(m.vars, f);
    WriteWords(m.code, f);
    Chain3(old(f.out), WriteAll(m.ehandler, Word), PackVardefs(m.vars), WriteAll(m.code, Word));
  }

  method WriteTable(ms: seq<Method>, f: Stream)
    modifies f`out
    ensures f.out == old(f.out) + WriteAll(ms, PackMethod)
  {
    ghost var start := f.out;
    WriteDone(start, ms, PackMethod);
    var i := 0;
    while i < |ms|
      invariant i <= |ms|
      invariant f.out == start + WriteAll(ms[..i], PackMethod)
    {
      WriteStep(start, ms, i, PackMethod);
      WriteMethod(ms[i], f);
      i := i + 1;
    }
  }

  method WriteMethods(t: Option<Table<Method>>, f: Stream)
    modifies f`out
    ensures f.out == old(f.out) + PackMethods(Entries(t))
  {
    if t.None? {
      f.Write(Int(4, 0));
      assert PackMethods([]) == Int(4, 0) + [];
      assert Int(4, 0) + [] == Int(4, 0);
    } else {
      f.Write(Int(4, |t.value.entries|));
      WriteTable(t.value.entries, f);
      Assoc(old(f.out), Int(4, |t.value.entries|), WriteAll(t.value.entries, PackMethod));
    }
  }

  method WriteVerb(vb: Verbdef, f: Stream)
    modifies f`out
    ensures f.out == old(f.out) + PackVerb(vb)
  {
    f.Write(Int(4, vb.verb));
    f.Write(Int(4, vb.prep));
    f.Write(Int(4, vb.meth));
    Chain3(old(f.out), Int(4, vb.verb), Int(4, vb.prep), Int(4, vb.meth));
  }

  method WriteVerbs(vbs: seq<Verbdef>, f: Stream)
    modifies f`out
    ensures f.out == old(f.out) + PackVerbs(vbs)
  {
    f.Write(Int(4, |vbs|));
    ghost var start := f.out;
    WriteDone(start, vbs, PackVerb);
    var i := 0;
    while i < |vbs|
      invariant i <= |vbs|
      invariant f.out == start + WriteAll(vbs[..i], PackVerb)
    {
      WriteStep(start, vbs, i, PackVerb);
      WriteVerb(vbs[i], f);
      i := i + 1;
    }
    Assoc(old(f.out), Int(4, |vbs|), WriteAll(vbs, PackVerb));
  }

  method WriteLock(l: Lock, f: Stream)
    modifies f`out
    ensures f.out == old(f.out) + PackLock(l)
  {
    WriteString(l.name, f);
    f.Write(Int(4, l.addedBy));
    Assoc(old(f.out), PackString(l.name), Int(4, l.addedBy));
  }

  method WriteLocks(ls: seq<Lock>, f: Stream)
    modifies f`out
    ensures f.out == old(f.out) + PackLocks(ls)
  {
    f.Write(Int(4, |ls|));
    ghost var start := f.out;
    WriteDone(start, ls, PackLock);
    var i := 0;
    while i < |ls|
      invariant i <= |ls|
      invariant f.out == start + WriteAll(ls[..i], PackLock)
    {
      WriteStep(start, ls, i, PackLock);
      WriteLock(ls[i], f);
      i := i + 1;
    }
    Assoc(old(f.out), Int(4, |ls|), WriteAll(ls, PackLock));
  }

  method WriteSymbol(y: Symbol, f: Stream)
    modifies f`out
    ensures f.out == old(f.out) + PackSymbol(y)
  {
    if y.Used? {
      f.Write(Int(4, y.ref));
      WriteString(y.text, f);
      Assoc(old(f.out), Int(4, y.ref), PackString(y.text));
    } else {
      f.Write(Int(4, 0));
    }
  }

  method WriteSlots(ys: seq<Symbol>, f: Stream)
    modifies f`out
    ensures f.out == old(f.out) + WriteAll(ys, PackSymbol)
  {
    ghost var start := f.out;
    WriteDone(start, ys, PackSymbol);
    var i := 0;
    while i < |ys|
      invariant i <= |ys|
      invariant f.out == start + WriteAll(ys[..i], PackSymbol)
    {
      WriteStep(start, ys, i, PackSymbol);
      WriteSymbol(ys[i], f);
      i := i + 1;
    }
  }

  method WriteSymbols(o: Object, f: Stream)
    modifies f`out
    ensures f.out == old(f.out) + PackSymbols(o)
  {
    f.Write(Int(4, |o.symbols|));
    f.Write(Int(4, o.stSize));
    WriteSlots(o.symbols, f);
    Chain3(old(f.out), Int(4, |o.symbols|), Int(4, o.stSize), WriteAll(o.symbols, PackSymbol));
  }

  /** pack_object. */
  method WriteObject(o: Object, f: Stream)
    modifies f`out
    ensures f.out == old(f.out) + PackObject(o)
  {
    WriteHead(o, f);
    WriteTables(o, f);
    Assoc(old(f.out), PackHead(o), PackTables(o));
  }

  method WriteHead(o: Object, f: Stream)
    modifies f`out
    ensures f.out == old(f.out) + PackHead(o)
  {
    f.Write(Int(4, o.id));
    f.Write(Int(2, o.server));
    WriteList(o.parents, f);
    WriteSymbols(o, f);
    Chain4(old(f.out), Int(4, o.id), Int(2, o.server), PackList(o.parents), PackSymbols(o));
  }

  method WriteTables(o: Object, f: Stream)
    modifies f`out
    ensures f.out == old(f.out) + PackTables(o)
  {
    WriteMethods(o.methods, f);
    WriteVerbs(o.verbs, f);
    WriteVardefs(Entries(o.vars), f);
    WriteLocks(o.locks, f);
    Chain4(old(f.out), PackMethods(Entries(o.methods)), PackVerbs(o.verbs), PackVardefs(Entries(o.vars)),
           PackLocks(o.locks));
  }

  // ---------------------------------------------------------------- sizes

  method CountVar(v: Var) returns (sz: nat)
    ensures sz == SizeVar(v)
    decreases v, 2
  {
    match v {
      case Str(s) => sz := 4 + |s| + 1;
      case Num(_) => sz := 4 + 1;
      case Obj(_, _) => sz := 4 + 2 + 1;
      case List(els) =>
        sz := CountList(els);
        sz := sz + 1;
      case Map(_, pairs) =>
        sz := CountMap(pairs);
        sz := sz + 1;
      case Err(_) => sz := 4 + 1;
      case Pc(_) => sz := 0;
    }
  }

  method CountList(els: seq<Var>) returns (sz: nat)
    ensures sz == SizeList(els)
    decreases els, 1
  {
    sz := 4;
    var i := 0;
    while i < |els|
      invariant i <= |els| && sz == 4 + SizeEls(els[..i])
    {
      var n := CountVar(els[i]);
      assert els[..i + 1][..i] == els[..i];
      sz := sz + n;
      i := i + 1;
    }
    assert els[..i] == els;
  }

  method CountMap(pairs: seq<Pair>) returns (sz: nat)
    ensures sz == 4 + SizePairs(pairs)
    decreases pairs, 1
  {
    sz := 4;
    var i := 0;
    while i < |pairs|
      invariant i <= |pairs| && sz == 4 + SizePairs(pairs[..i])
    {
      var n := CountPair(pairs[i]);
      assert pairs[..i + 1][..i] == pairs[..i];
      sz := sz + n;
      i := i + 1;
    }
    assert pairs[..i] == pairs;
  }

  method CountPair(p: Pair) returns (sz: nat)
    ensures sz == SizePair(p)
    decreases p, 0
  {
    var a := CountVar(p.key);
    var b := CountVar(p.val);
    sz := a + b;
  }

  method CountVardefs(vs: seq<Vardef>) returns (sz: nat)
    ensures sz == SizeVardefs(vs)
  {
    sz := 0;
    var i := 0;
    while i < |vs|
      invariant i <= |vs| && sz == SumAll(vs[..i], SizeVardef)
    {
      var n := CountVar(vs[i].value);
      assert vs[..i + 1][..i] == vs[..i];
      sz := sz + 4 + n;
      i := i + 1;
    }
    assert vs[..i] == vs;
  }

  method CountMethods(t: Option<Table<Method>>) returns (sz: nat)
    ensures sz == 4 + SumAll(Entries(t), SizeMethod)
  {
    sz := 4;
    var ms, i := Entries(t), 0;
    while i < |ms|
      invariant i <= |ms| && sz == 4 + SumAll(ms[..i], SizeMethod)
    {
      var n := CountVardefs(ms[i].vars);
      assert ms[..i + 1][..i] == ms[..i];
      sz := sz + 4 + 1 + (4 + |ms[i].code| * 4) + 4 + (NERRS * 4 + n);
      i := i + 1;
    }
    assert ms[..i] == ms;
  }

  method CountVerbs(vbs: seq<Verbdef>) returns (sz: nat)
    ensures sz == 4 + SumAll(vbs, SizeVerb)
  {
    sz := 4;
    var i := 0;
    while i < |vbs|
      invariant i <= |vbs| && sz == 4 + SumAll(vbs[..i], SizeVerb)
    {
      assert vbs[..i + 1][..i] == vbs[..i];
      sz := sz + 3 * 4;
      i := i + 1;
    }
    assert vbs[..i] == vbs;
  }

  method CountSymbols(ys: seq<Symbol>) returns (sz: nat)
    ensures sz == 8 + SumAll(ys, SizeSymbol)
  {
    sz := 4 + 4;
    var i := 0;
    while i < |ys|
      invariant i <= |ys| && sz == 8 + SumAll(ys[..i], SizeSymbol)
    {
      assert ys[..i + 1][..i] == ys[..i];
      sz := sz + 4;
      if ys[i].Used? {
        sz := sz + (4 + |ys[i].text|);
      }
      i := i + 1;
    }
    assert ys[..i] == ys;
  }

  method CountLocks(ls: seq<Lock>) returns (sz: nat)
    ensures sz == 4 + SumAll(ls, SizeLock)
  {
    sz := 4;
    var i := 0;
    while i < |ls|
      invariant i <= |ls| && sz == 4 + SumAll(ls[..i], SizeLock)
    {
      assert ls[..i + 1][..i] == ls[..i];
      sz := sz + (4 + |ls[i].name|) + 4;
      i := i + 1;
    }
    assert ls[..i] == ls;
  }

  /** size_object. */
  method CountObject(o: Object) returns (sz: nat)
    ensures sz == SizeObject(o)
  {
    sz := 4 + 2;
    var n := CountList(o.parents);
    sz := sz + n;
    n := CountSymbols(o.symbols);
    sz := sz + n;
    n := CountMethods(o.methods);
    sz := sz + n;
    n := CountVardefs(Entries(o.vars));
    sz := sz + 4 + n;
    n := CountVerbs(o.verbs);
    sz := sz + n;
    n := CountLocks(o.locks);
    sz := sz + n;
  }

  // ---------------------------------------------------------------- reading

  method GetInt(k: nat, f: Stream) returns (n: int)
    requires ReadInt(k, f.Rest()).Some?
    modifies f`pos
    ensures ReadInt(k, old(f.Rest())) == Some((n, f.Rest()))
  {
    var a := f.Read(k);
    var u := Value(a);
    n := if 2 * u >= Pow256(k) then u - Pow256(k) else u;
  }

  method GetString(f: Stream) returns (t: string)
    requires ReadString(f.Rest()).Some?
    modifies f`pos
    ensures ReadString(old(f.Rest())) == Some((t, f.Rest()))
  {
    var len := GetInt(4, f);
    t := f.Read(len);
  }

  /** unpack_var. */
  method GetVar(f: Stream) returns (v: Var)
    requires ReadVar(f.Rest()).Some?
    modifies f`pos
    ensures ReadVar(old(f.Rest())) == Some((v, f.Rest()))
    decreases |f.Rest()|, 0
  {
    var a := f.Read(1);
    v := GetPayload(a[0] as int, f);
  }

  method GetPayload(tag: int, f: Stream) returns (v: Var)
    requires ReadPayload(tag, f.Rest()).Some?
    modifies f`pos
    ensures ReadPayload(tag, old(f.Rest())) == Some((v, f.Rest()))
    decreases |f.Rest()|, 4
  {
    match tag {
      case 0 =>
        var t := GetString(f);
        v := Str(t);
      case 1 =>
        var n := GetInt(4, f);
        v := Num(n);
      case 2 =>
        var id := GetInt(4, f);
        var server := GetInt(2, f);
        v := Obj(id, server);
      case 3 =>
        var els := GetList(f);
        v := List(els);
      case 4 =>
        v := GetMap(f);
      case _ =>
        var e := GetInt(4, f);
        v := Var.Err(e);
    }
  }

  lemma {:induction false} CanReadEl(n: nat, i: nat, s: string)
    requires i < n && ReadEls(n, s).Some?
    ensures ReadEls(i, s).Some? && ReadVar(ReadEls(i, s).value.1).Some?
  {
    if i < n - 1 { CanReadEl(n - 1, i, s); }
  }

  method GetList(f: Stream) returns (els: seq<Var>)
    requires ReadList(f.Rest()).Some?
    modifies f`pos
    ensures ReadList(old(f.Rest())) == Some((els, f.Rest()))
    decreases |f.Rest()|, 3
  {
    var n := GetInt(4, f);
    els := ElsFrom(n, f);
  }

  method ElsFrom(n: nat, f: Stream) returns (els: seq<Var>)
    requires ReadEls(n, f.Rest()).Some?
    modifies f`pos
    ensures ReadEls(n, old(f.Rest())) == Some((els, f.Rest()))
    decreases |f.Rest()|, 2
  {
    ghost var s := f.Rest();
    els := [];
    var i := 0;
    while i < n
      invariant i <= n && ReadEls(i, s) == Some((els, f.Rest()))
    {
      CanReadEl(n, i, s);
      var v := GetVar(f);
      els := els + [v];
      i := i + 1;
    }
  }

  method GetPair(f: Stream) returns (p: Pair)
    requires ReadPair(f.Rest()).Some?
    modifies f`pos
    ensures ReadPair(old(f.Rest())) == Some((p, f.Rest()))
    decreases |f.Rest()|, 1
  {
    var key := GetVar(f);
    var val := GetVar(f);
    p := Pair(key, val);
  }

  lemma {:induction false} CanReadPair(n: nat, i: nat, s: string)
    requires i < n && ReadPairs(n, s).Some?
    ensures ReadPairs(i, s).Some? && ReadPair(ReadPairs(i, s).value.1).Some?
  {
    if i < n - 1 { CanReadPair(n - 1, i, s); }
  }

  /** unpack_map: a fresh table, filled by map_add. */
  method GetMap(f: Stream) returns (m: Var)
    requires ReadMap(f.Rest()).Some?
    modifies f`pos
    ensures ReadMap(old(f.Rest())) == Some((m, f.Rest()))
    decreases |f.Rest()|, 3
  {
    var n := GetInt(4, f);
    var table := PairsFrom(n, f);
    m := Map(TableSize(n), table);
  }

  method PairsFrom(n: nat, f: Stream) returns (table: seq<Pair>)
    requires ReadPairs(n, f.Rest()).Some?
    modifies f`pos
    ensures var (pairs, s) := ReadPairs(n, old(f.Rest())).value; table == Rehash(TableSize(n), pairs) && f.Rest() == s
    decreases |f.Rest()|, 2
  {
    hide ReadPair, MapAdd;
    ghost var s := f.Rest();
    ghost var done: seq<Pair> := [];
    table := [];
    var i := 0;
    while i < n
      invariant i <= n && ReadPairs(i, s) == Some((done, f.Rest())) && table == Rehash(TableSize(n), done)
    {
      CanReadPair(n, i, s);
      var p := GetPair(f);
      table := MapAdd(TableSize(n), table, p.key, p.val);
      assert (done + [p])[..|done|] == done;
      done := done + [p];
      i := i + 1;
    }
  }

  method GetVardef(f: Stream) returns (v: Vardef)
    requires ReadVardef(f.Rest()).Some?
    modifies f`pos
    ensures ReadVardef(old(f.Rest())) == Some((v, f.Rest()))
  {
    var name := GetInt(4, f);
    var value := GetVar(f);
    v := Vardef(name, value);
  }

  method GetVardefs(f: Stream) returns (vs: seq<Vardef>)
    requires ReadCounted(f.Rest(), ReadVardef).Some?
    modifies f`pos
    ensures ReadCounted(old(f.Rest()), ReadVardef) == Some((vs, f.Rest()))
  {
    var n := GetInt(4, f);
    vs := VardefsFrom(n, f);
  }

  method VardefsFrom(n: nat, f: Stream) returns (vs: seq<Vardef>)
    requires ReadN(n, f.Rest(), ReadVardef).Some?
    modifies f`pos
    ensures ReadN(n, old(f.Rest()), ReadVardef) == Some((vs, f.Rest()))
  {
    ghost var s := f.Rest();
    vs := [];
    var i := 0;
    while i < n
      invariant i <= n && ReadN(i, s, ReadVardef) == Some((vs, f.Rest()))
    {
      CanRead(n, i, s, ReadVardef);
      ghost var rest := f.Rest();
      var x := GetVardef(f);
      ReadMore(i, s, ReadVardef, vs, rest, x, f.Rest());
      vs := vs + [x];
      i := i + 1;
    }
  }

  /** unpack_gvars: each variable enters a fresh table by var_add_global. */
  method GetGlobals(symbols: seq<Symbol>, f: Stream) returns (t: Table<Vardef>)
    requires ReadCounted(f.Rest(), ReadVardef).Some?
    modifies f`pos
    ensures var (xs, s) := ReadCounted(old(f.Rest()), ReadVardef).value; t == VarTable(symbols, xs) && f.Rest() == s
  {
    var n := GetInt(4, f);
    var table := GlobalsFrom(n, symbols, f);
    t := Table(TableSize(n / HASH_INIT_LOAD), table);
  }

  method GlobalsFrom(n: nat, symbols: seq<Symbol>, f: Stream) returns (table: seq<Vardef>)
    requires ReadN(n, f.Rest(), ReadVardef).Some?
    modifies f`pos
    ensures var (xs, s) := ReadN(n, old(f.Rest()), ReadVardef).value;
            table == AddGlobals(symbols, TableSize(n / HASH_INIT_LOAD), xs) && f.Rest() == s
  {
    ghost var s := f.Rest();
    ghost var done: seq<Vardef> := [];
    var size := TableSize(n / HASH_INIT_LOAD);
    table := [];
    var i := 0;
    while i < n
      invariant i <= n && ReadN(i, s, ReadVardef) == Some((done, f.Rest()))
      invariant table == AddGlobals(symbols, size, done)
    {
      CanRead(n, i, s, ReadVardef);
      ghost var rest := f.Rest();
      var x := GetVardef(f);
      if !HasName(table, x.name) {
        table := Buckets.Prepend(table, x, VarBucket(symbols, size));
      }
      assert (done + [x])[..|done|] == done;
      ReadMore(i, s, ReadVardef, done, rest, x, f.Rest());
      done := done + [x];
      i := i + 1;
    }
  }

  method GetWords(n: nat, f: Stream) returns (ws: seq<int>)
    requires ReadN(n, f.Rest(), ReadWord).Some?
    modifies f`pos
    ensures ReadN(n, old(f.Rest()), ReadWord) == Some((ws, f.Rest()))
  {
    ghost var s := f.Rest();
    ws := [];
    var i := 0;
    while i < n
      invariant i <= n
      invariant ReadN(i, s, ReadWord) == Some((ws, f.Rest()))
    {
      CanRead(n, i, s, ReadWord);
      ghost var rest := f.Rest();
      var w := GetInt(4, f);
      ReadMore(i, s, ReadWord, ws, rest, w, f.Rest());
      ws := ws + [w];
      i := i + 1;
    }
  }

  method GetMethod(f: Stream) returns (m: Method)
    requires ReadMethod(f.Rest()).Some?
    modifies f`pos
    ensures ReadMethod(old(f.Rest())) == Some((m, f.Rest()))
  {
    var name := GetInt(4, f);
    var flag := f.Read(1);
    var ninst := GetInt(4, f);
    var eh := GetWords(NERRS, f);
    var vars := GetVardefs(f);
    var code := GetWords(if ninst < 0 then 0 else ninst, f);
    m := Method(name, flag[0] as int % 2 == 1, eh, vars, code);
  }

  /** unpack_methods: each method enters a fresh table by add_method. */
  method GetMethods(symbols: seq<Symbol>, f: Stream) returns (t: Table<Method>)
    requires ReadCounted(f.Rest(), ReadMethod).Some?
    modifies f`pos
    ensures var (xs, s) := ReadCounted(old(f.Rest()), ReadMethod).value; t == MethodTable(symbols, xs) && f.Rest() == s
  {
    var n := GetInt(4, f);
    var table := MethodsFrom(n, symbols, f);
    t := Table(TableSize(n / HASH_INIT_LOAD), table);
  }

  method MethodsFrom(n: nat, symbols: seq<Symbol>, f: Stream) returns (table: seq<Method>)
    requires ReadN(n, f.Rest(), ReadMethod).Some?
    modifies f`pos
    ensures var (xs, s) := ReadN(n, old(f.Rest()), ReadMethod).value;
            table == AddMethods(symbols, TableSize(n / HASH_INIT_LOAD), xs) && f.Rest() == s
  {
    ghost var s := f.Rest();
    ghost var done: seq<Method> := [];
    var size := TableSize(n / HASH_INIT_LOAD);
    table := [];
    var i := 0;
    while i < n
      invariant i <= n && ReadN(i, s, ReadMethod) == Some((done, f.Rest()))
      invariant table == AddMethods(symbols, size, done)
    {
      CanRead(n, i, s, ReadMethod);
      ghost var rest := f.Rest();
      var x := GetMethod(f);
      table := Buckets.Append(table, x, MethodBucket(symbols, size));
      assert (done + [x])[..|done|] == done;
      ReadMore(i, s, ReadMethod, done, rest, x, f.Rest());
      done := done + [x];
      i := i + 1;
    }
  }

  method GetVerb(f: Stream) returns (vb: Verbdef)
    requires ReadVerb(f.Rest()).Some?
    modifies f`pos
    ensures ReadVerb(old(f.Rest())) == Some((vb, f.Rest()))
  {
    var verb := GetInt(4, f);
    var prep := GetInt(4, f);
    var meth := GetInt(4, f);
    vb := Verbdef(verb, prep, meth);
  }

  method GetVerbs(f: Stream) returns (vbs: seq<Verbdef>)
    requires ReadCounted(f.Rest(), ReadVerb).Some?
    modifies f`pos
    ensures ReadCounted(old(f.Rest()), ReadVerb) == Some((vbs, f.Rest()))
  {
    var n := GetInt(4, f);
    vbs := VerbsFrom(n, f);
  }

  method VerbsFrom(n: nat, f: Stream) returns (vbs: seq<Verbdef>)
    requires ReadN(n, f.Rest(), ReadVerb).Some?
    modifies f`pos
    ensures ReadN(n, old(f.Rest()), ReadVerb) == Some((vbs, f.Rest()))
  {
    ghost var s := f.Rest();
    vbs := [];
    var i := 0;
    while i < n
      invariant i <= n && ReadN(i, s, ReadVerb) == Some((vbs, f.Rest()))
    {
      CanRead(n, i, s, ReadVerb);
      ghost var rest := f.Rest();
      var x := GetVerb(f);
      ReadMore(i, s, ReadVerb, vbs, rest, x, f.Rest());
      vbs := vbs + [x];
      i := i + 1;
    }
  }

  method GetLock(f: Stream) returns (l: Lock)
    requires ReadLock(f.Rest()).Some?
    modifies f`pos
    ensures ReadLock(old(f.Rest())) == Some((l, f.Rest()))
  {
    var name := GetString(f);
    var owner := GetInt(4, f);
    l := Lock(name, owner);
  }

  method GetLocks(f: Stream) returns (ls: seq<Lock>)
    requires ReadCounted(f.Rest(), ReadLock).Some?
    modifies f`pos
    ensures ReadCounted(old(f.Rest()), ReadLock) == Some((ls, f.Rest()))
  {
    var n := GetInt(4, f);
    ls := LocksFrom(n, f);
  }

  method LocksFrom(n: nat, f: Stream) returns (ls: seq<Lock>)
    requires ReadN(n, f.Rest(), ReadLock).Some?
    modifies f`pos
    ensures ReadN(n, old(f.Rest()), ReadLock) == Some((ls, f.Rest()))
  {
    ghost var s := f.Rest();
    ls := [];
    var i := 0;
    while i < n
      invariant i <= n && ReadN(i, s, ReadLock) == Some((ls, f.Rest()))
    {
      CanRead(n, i, s, ReadLock);
      ghost var rest := f.Rest();
      var x := GetLock(f);
      ReadMore(i, s, ReadLock, ls, rest, x, f.Rest());
      ls := ls + [x];
      i := i + 1;
    }
  }

  method GetSymbol(f: Stream) returns (y: Symbol)
    requires ReadSymbol(f.Rest()).Some?
    modifies f`pos
    ensures ReadSymbol(old(f.Rest())) == Some((y, f.Rest()))
  {
    var ref := GetInt(4, f);
    if ref == 0 {
      y := Free;
    } else {
      var text := GetString(f);
      y := Used(ref, text);
    }
  }

  method SymbolsFrom(n: nat, f: Stream) returns (ys: seq<Symbol>)
    requires ReadN(n, f.Rest(), ReadSymbol).Some?
    modifies f`pos
    ensures ReadN(n, old(f.Rest()), ReadSymbol) == Some((ys, f.Rest()))
  {
    ghost var s := f.Rest();
    ys := [];
    var i := 0;
    while i < n
      invariant i <= n && ReadN(i, s, ReadSymbol) == Some((ys, f.Rest()))
    {
      CanRead(n, i, s, ReadSymbol);
      ghost var rest := f.Rest();
      var x := GetSymbol(f);
      ReadMore(i, s, ReadSymbol, ys, rest, x, f.Rest());
      ys := ys + [x];
      i := i + 1;
    }
  }

  method GetSymbols(f: Stream) returns (stSize: int, ys: seq<Symbol>)
    requires ReadSymbols(f.Rest()).Some?
    modifies f`pos
    ensures ReadSymbols(old(f.Rest())) == Some(((stSize, ys), f.Rest()))
  {
    var n := GetInt(4, f);
    stSize := GetInt(4, f);
    ys := SymbolsFrom(n, f);
  }

  /** unpack_object. */
  method GetObject(f: Stream) returns (o: Object)
    requires ReadObject(f.Rest()).Some?
    modifies f`pos
    ensures ReadObject(old(f.Rest())) == Some((o, f.Rest()))
  {
    o := GetHead(f);
    o := GetTables(o, f);
  }

  method GetHead(f: Stream) returns (o: Object)
    requires ReadHead(f.Rest()).Some?
    modifies f`pos
    ensures ReadHead(old(f.Rest())) == Some((o, f.Rest()))
  {
    var id := GetInt(4, f);
    var server := GetInt(2, f);
    var parents := GetList(f);
    var stSize, symbols := GetSymbols(f);
    o := Object(id, server, parents, stSize, symbols, None, [], None, []);
  }

  method GetTables(o: Object, f: Stream) returns (o': Object)
    requires ReadTables(o, f.Rest()).Some?
    modifies f`pos
    ensures ReadTables(o, old(f.Rest())) == Some((o', f.Rest()))
  {
    var methods := GetMethods(o.symbols, f);
    var verbs := GetVerbs(f);
    var vars := GetGlobals(o.symbols, f);
    var locks := GetLocks(f);
    o' := o.(methods := Some(methods), verbs := verbs, vars := Some(vars), locks := locks);
  }
}

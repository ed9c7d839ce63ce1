/** The stored form of an object (src/src/dbpack.c), its size (src/src/dbsize.c) and how it is read
    back (src/src/dbunpack.c), as functions on byte strings. A byte is a character below 256; an int
    is four bytes and a server number two, little end first. */
module PackSpec {
  import opened Wrappers
  import opened Buckets
  import opened Values

  datatype Symbol = Free | Used(ref: int, text: string)
  datatype Vardef = Vardef(name: int, value: Var)
  datatype Verbdef = Verbdef(verb: int, prep: int, meth: int)
  datatype Lock = Lock(name: string, addedBy: int)
  datatype Method = Method(name: int, blocked: bool, ehandler: seq<int>, vars: seq<Vardef>, code: seq<int>)

  /** A hash table: its width and its entries in traversal order. */
  datatype Table<+T> = Table(size: nat, entries: seq<T>)

  datatype Object = Object(
    id: int, server: int, parents: seq<Var>, stSize: int, symbols: seq<Symbol>,
    methods: Option<Table<Method>>, verbs: seq<Verbdef>, vars: Option<Table<Vardef>>, locks: seq<Lock>)

  const NERRS := 25
  const HASH_INIT_LOAD := 2

  function Entries<T>(t: Option<Table<T>>): seq<T> { if t.Some? then t.value.entries else [] }

  // ---------------------------------------------------------------- numbers

  function Pow256(k: nat): (p: nat)
    ensures p > 0
  {
    if k == 0 then 1 else 256 * Pow256(k - 1)
  }

  function Bytes(k: nat, u: nat): (s: string)
    ensures |s| == k
  {
    if k == 0 then [] else [(u % 256) as char] + Bytes(k - 1, u / 256)
  }

  function Value(s: string): nat {
    if s == [] then 0 else s[0] as nat + 256 * Value(s[1..])
  }

  predicate Fits(k: nat, n: int) { -(Pow256(k) as int) <= 2 * n < Pow256(k) }

  /** The k bytes of n, in two's complement. */
  function Int(k: nat, n: int): (s: string)
    ensures |s| == k
  {
    Bytes(k, n % Pow256(k))
  }

  function ReadInt(k: nat, s: string): Option<(int, string)> {
    if |s| < k then None
    else
      var u := Value(s[..k]);
      Some((if 2 * u >= Pow256(k) then u - Pow256(k) else u, s[k..]))
  }

  // ---------------------------------------------------------------- writing

  function WriteAll<T>(xs: seq<T>, w: T -> string): string {
    if xs == [] then [] else WriteAll(xs[..|xs| - 1], w) + w(xs[|xs| - 1])
  }

  function PackString(s: string): string { Int(4, |s|) + s }

  function PackVar(v: Var): (r: string)
    ensures |r| > 0
    decreases v, 1
  {
    [Tag(v) as char] + Payload(v)
  }

  /** The type of a value, as the byte written before it. */
  function Tag(v: Var): (t: nat)
    ensures t < 7
  {
    match v case Str(_) => 0 case Num(_) => 1 case Obj(_, _) => 2 case List(_) => 3 case Map(_, _) => 4
            case Err(_) => 5 case Pc(_) => 6
  }

  function Payload(v: Var): string
    decreases v, 0
  {
    match v
    case Str(s) => PackString(s)
    case Num(n) => Int(4, n)
    case Obj(id, server) => Int(4, id) + Int(2, server)
    case List(els) => PackList(els)
    case Map(_, pairs) => Int(4, |pairs|) + PackPairs(pairs)
    case Err(e) => Int(4, e)
    case Pc(_) => []
  }

  function PackList(els: seq<Var>): string
    decreases els, 1
  {
    Int(4, |els|) + PackEls(els)
  }

  function PackEls(els: seq<Var>): string
    decreases els, 0
  {
    if els == [] then [] else PackEls(els[..|els| - 1]) + PackVar(els[|els| - 1])
  }

  function PackPairs(pairs: seq<Pair>): string {
    if pairs == [] then [] else PackPairs(pairs[..|pairs| - 1]) + PackPair(pairs[|pairs| - 1])
  }

  function PackPair(p: Pair): string { PackVar(p.key) + PackVar(p.val) }

  function PackVardef(v: Vardef): string { Int(4, v.name) + PackVar(v.value) }

  function PackVardefs(vs: seq<Vardef>): string { Int(4, |vs|) + WriteAll(vs, PackVardef) }

  function PackVerb(vb: Verbdef): string { Int(4, vb.verb) + (Int(4, vb.prep) + Int(4, vb.meth)) }

  function PackVerbs(vbs: seq<Verbdef>): string { Int(4, |vbs|) + WriteAll(vbs, PackVerb) }

  function PackLock(l: Lock): string { PackString(l.name) + Int(4, l.addedBy) }

  function PackLocks(ls: seq<Lock>): string { Int(4, |ls|) + WriteAll(ls, PackLock) }

  function PackSymbol(y: Symbol): string {
    match y case Free => Int(4, 0) case Used(ref, text) => Int(4, ref) + PackString(text)
  }

  function PackSymbols(o: Object): string {
    Int(4, |o.symbols|) + (Int(4, o.stSize) + WriteAll(o.symbols, PackSymbol))
  }

  function Word(i: int): string { Int(4, i) }

  /** The blocked flag is one signed bit, stored as a byte. */
  function Flag(b: bool): string { [if b then 255 as char else 0 as char] }

  function PackMethod(m: Method): string {
    Int(4, m.name) + (Flag(m.blocked) + (Int(4, |m.code|) + PackMethodBody(m)))
  }

  function PackMethodBody(m: Method): string {
    WriteAll(m.ehandler, Word) + (PackVardefs(m.vars) + WriteAll(m.code, Word))
  }

  function PackMethods(ms: seq<Method>): string { Int(4, |ms|) + WriteAll(ms, PackMethod) }

  function PackObject(o: Object): string { PackHead(o) + PackTables(o) }

  function PackHead(o: Object): string {
    Int(4, o.id) + (Int(2, o.server) + (PackList(o.parents) + PackSymbols(o)))
  }

  function PackTables(o: Object): string {
    PackMethods(Entries(o.methods)) + (PackVerbs(o.verbs) + (PackVardefs(Entries(o.vars)) + PackLocks(o.locks)))
  }

  // ---------------------------------------------------------------- sizes

  function SumAll<T>(xs: seq<T>, f: T -> nat): nat {
    if xs == [] then 0 else SumAll(xs[..|xs| - 1], f) + f(xs[|xs| - 1])
  }

  function SizeString(s: string): nat { 4 + |s| }

  /** size_var; a program counter is given no room at all. */
  function SizeVar(v: Var): nat {
    match v
    case Str(s) => SizeString(s) + 1
    case Num(_) => 4 + 1
    case Obj(_, _) => 4 + 2 + 1
    case List(els) => SizeList(els) + 1
    case Map(_, pairs) => 4 + SizePairs(pairs) + 1
    case Err(_) => 4 + 1
    case Pc(_) => 0
  }

  function SizeList(els: seq<Var>): nat
    decreases els, 1
  {
    4 + SizeEls(els)
  }

  function SizeEls(els: seq<Var>): nat
    decreases els, 0
  {
    if els == [] then 0 else SizeEls(els[..|els| - 1]) + SizeVar(els[|els| - 1])
  }

  function SizePairs(pairs: seq<Pair>): nat {
    if pairs == [] then 0 else SizePairs(pairs[..|pairs| - 1]) + SizePair(pairs[|pairs| - 1])
  }

  function SizePair(p: Pair): nat { SizeVar(p.key) + SizeVar(p.val) }

  function SizeVardef(v: Vardef): nat { 4 + SizeVar(v.value) }

  function SizeVardefs(vs: seq<Vardef>): nat { SumAll(vs, SizeVardef) }

  function SizeVerb(vb: Verbdef): nat { 3 * 4 }

  function SizeLock(l: Lock): nat { SizeString(l.name) + 4 }

  function SizeSymbol(y: Symbol): nat { if y.Used? then 4 + SizeString(y.text) else 4 }

  function SizeMethod(m: Method): nat { 4 + 1 + (4 + 4 * |m.code|) + 4 + (NERRS * 4 + SizeVardefs(m.vars)) }

  function SizeObject(o: Object): nat {
    4 + 2 + SizeList(o.parents) + (4 + 4 + SumAll(o.symbols, SizeSymbol)) + (4 + SumAll(Entries(o.methods), SizeMethod))
      + (4 + SizeVardefs(Entries(o.vars))) + (4 + SumAll(o.verbs, SizeVerb)) + (4 + SumAll(o.locks, SizeLock))
  }

  // ---------------------------------------------------------------- reading

  type Reader<T> = string -> Option<(T, string)>

  /** n entries, one after the other. */
  function ReadN<T>(n: nat, s: string, r: Reader<T>): (a: Option<(seq<T>, string)>)
    ensures a.Some? ==> |a.value.0| == n
  {
    if n == 0 then Some(([], s))
    else
      match ReadN(n - 1, s, r)
      case None => None
      case Some((xs, s1)) => match r(s1) case None => None case Some((x, s2)) => Some((xs + [x], s2))
  }

  /** A count followed by that many entries. A count below zero is never written. */
  function ReadCounted<T>(s: string, r: Reader<T>): Option<(seq<T>, string)> {
    match ReadInt(4, s)
    case None => None
    case Some((n, s1)) => if n < 0 then None else ReadN(n, s1, r)
  }

  function ReadString(s: string): Option<(string, string)> {
    match ReadInt(4, s)
    case None => None
    case Some((n, s1)) => if n < 0 || |s1| < n then None else Some((s1[..n], s1[n..]))
  }

  function ReadVar(s: string): (r: Option<(Var, string)>)
    ensures r.Some? ==> |r.value.1| < |s|
    decreases |s|, 0
  {
    if s == [] then None else ReadPayload(s[0] as int, s[1..])
  }

  function ReadPayload(tag: int, s: string): (r: Option<(Var, string)>)
    ensures r.Some? ==> |r.value.1| <= |s|
    decreases |s|, 4
  {
    match tag
    case 0 => (match ReadString(s) case None => None case Some((t, s1)) => Some((Str(t), s1)))
    case 1 => (match ReadInt(4, s) case None => None case Some((n, s1)) => Some((Num(n), s1)))
    case 2 =>
      (match ReadInt(4, s)
       case None => None
       case Some((id, s1)) =>
         match ReadInt(2, s1) case None => None case Some((server, s2)) => Some((Obj(id, server), s2)))
    case 3 => (match ReadList(s) case None => None case Some((els, s1)) => Some((List(els), s1)))
    case 4 => ReadMap(s)
    case 5 => (match ReadInt(4, s) case None => None case Some((e, s1)) => Some((Var.Err(e), s1)))
    case _ => None
  }

  function ReadList(s: string): (r: Option<(seq<Var>, string)>)
    ensures r.Some? ==> |r.value.1| <= |s|
    decreases |s|, 3
  {
    match ReadInt(4, s)
    case None => None
    case Some((n, s1)) => if n < 0 then None else ReadEls(n, s1)
  }

  function ReadEls(n: nat, s: string): (r: Option<(seq<Var>, string)>)
    ensures r.Some? ==> |r.value.1| <= |s| && |r.value.0| == n
    decreases |s|, 2, n
  {
    if n == 0 then Some(([], s))
    else
      match ReadEls(n - 1, s)
      case None => None
      case Some((xs, s1)) => match ReadVar(s1) case None => None case Some((x, s2)) => Some((xs + [x], s2))
  }

  function ReadMap(s: string): (r: Option<(Var, string)>)
    ensures r.Some? ==> |r.value.1| <= |s|
    decreases |s|, 3
  {
    match ReadInt(4, s)
    case None => None
    case Some((n, s1)) =>
      if n < 0 then None
      else
        match ReadPairs(n, s1)
        case None => None
        case Some((pairs, s2)) => Some((Map(TableSize(n), Rehash(TableSize(n), pairs)), s2))
  }

  function ReadPairs(n: nat, s: string): (r: Option<(seq<Pair>, string)>)
    ensures r.Some? ==> |r.value.1| <= |s| && |r.value.0| == n
    decreases |s|, 2, n
  {
    if n == 0 then Some(([], s))
    else
      match ReadPairs(n - 1, s)
      case None => None
      case Some((ps, s1)) => match ReadPair(s1) case None => None case Some((p, s2)) => Some((ps + [p], s2))
  }

  function ReadPair(s: string): (r: Option<(Pair, string)>)
    ensures r.Some? ==> |r.value.1| < |s|
    decreases |s|, 1
  {
    match ReadVar(s)
    case None => None
    case Some((key, s1)) => match ReadVar(s1) case None => None case Some((val, s2)) => Some((Pair(key, val), s2))
  }

  function ReadVardef(s: string): Option<(Vardef, string)> {
    match ReadInt(4, s)
    case None => None
    case Some((name, s1)) => match ReadVar(s1) case None => None case Some((v, s2)) => Some((Vardef(name, v), s2))
  }

  function ReadVerb(s: string): Option<(Verbdef, string)> {
    match ReadInt(4, s)
    case None => None
    case Some((verb, s1)) =>
      match ReadInt(4, s1)
      case None => None
      case Some((prep, s2)) =>
        match ReadInt(4, s2) case None => None case Some((m, s3)) => Some((Verbdef(verb, prep, m), s3))
  }

  function ReadLock(s: string): Option<(Lock, string)> {
    match ReadString(s)
    case None => None
    case Some((name, s1)) => match ReadInt(4, s1) case None => None case Some((owner, s2)) => Some((Lock(name, owner), s2))
  }

  function ReadSymbol(s: string): Option<(Symbol, string)> {
    match ReadInt(4, s)
    case None => None
    case Some((ref, s1)) =>
      if ref == 0 then Some((Free, s1))
      else match ReadString(s1) case None => None case Some((t, s2)) => Some((Used(ref, t), s2))
  }

  function ReadWord(s: string): Option<(int, string)> { ReadInt(4, s) }

  function ReadMethod(s: string): Option<(Method, string)> {
    match ReadInt(4, s)
    case None => None
    case Some((name, s1)) => if s1 == [] then None else ReadMethodCode(name, s1[0] as int % 2 == 1, s1[1..])
  }

  function ReadMethodCode(name: int, blocked: bool, s: string): Option<(Method, string)> {
    match ReadInt(4, s)
    case None => None
    case Some((ninst, s1)) => ReadMethodBody(name, blocked, if ninst < 0 then 0 else ninst, s1)
  }

  function ReadMethodBody(name: int, blocked: bool, ninst: nat, s: string): Option<(Method, string)> {
    match ReadN(NERRS, s, ReadWord)
    case None => None
    case Some((eh, s1)) =>
      match ReadCounted(s1, ReadVardef)
      case None => None
      case Some((vars, s2)) =>
        match ReadN(ninst, s2, ReadWord)
        case None => None
        case Some((code, s3)) => Some((Method(name, blocked, eh, vars, code), s3))
  }

  /** The text of a symbol, in the object's own table or, below zero, among the system symbols. */
  function SymText(symbols: seq<Symbol>, n: int): string {
    if 0 <= n < |symbols| && symbols[n].Used? then symbols[n].text
    else if -|SYSTEM_SYMBOLS| <= n < 0 then SYSTEM_SYMBOLS[-n - 1]
    else ""
  }

  const SYSTEM_SYMBOLS: seq<string> := ["", "init", "parse", "boot_server", "connect_server", "disconnect_server",
    "connect", "disconnect", "raise", "return"]

  function MethodBucket(symbols: seq<Symbol>, size: nat): Method -> int
    requires size > 0
  {
    (m: Method) => HashFrom(0, SymText(symbols, m.name)) as int % size
  }

  function VarBucket(symbols: seq<Symbol>, size: nat): Vardef -> int
    requires size > 0
  {
    (v: Vardef) => HashFrom(0, SymText(symbols, v.name)) as int % size
  }

  /** add_method for each method in turn, each to the tail of its chain. */
  function AddMethods(symbols: seq<Symbol>, size: nat, ms: seq<Method>): seq<Method>
    requires size > 0
  {
    if ms == [] then []
    else Append(AddMethods(symbols, size, ms[..|ms| - 1]), ms[|ms| - 1], MethodBucket(symbols, size))
  }

  predicate HasName(vs: seq<Vardef>, name: int) { exists i :: 0 <= i < |vs| && vs[i].name == name }

  /** var_add_global for each variable in turn: to the head of its chain, unless the name is there. */
  function AddGlobals(symbols: seq<Symbol>, size: nat, vs: seq<Vardef>): seq<Vardef>
    requires size > 0
  {
    if vs == [] then []
    else
      var t, v := AddGlobals(symbols, size, vs[..|vs| - 1]), vs[|vs| - 1];
      if HasName(t, v.name) then t else Prepend(t, v, VarBucket(symbols, size))
  }

  function MethodTable(symbols: seq<Symbol>, ms: seq<Method>): Table<Method> {
    var size := TableSize(|ms| / HASH_INIT_LOAD);
    Table(size, AddMethods(symbols, size, ms))
  }

  function VarTable(symbols: seq<Symbol>, vs: seq<Vardef>): Table<Vardef> {
    var size := TableSize(|vs| / HASH_INIT_LOAD);
    Table(size, AddGlobals(symbols, size, vs))
  }

  function ReadSymbols(s: string): Option<((int, seq<Symbol>), string)> {
    match ReadInt(4, s)
    case None => None
    case Some((n, s1)) =>
      if n < 0 then None
      else
        match ReadInt(4, s1)
        case None => None
        case Some((st, s2)) =>
          match ReadN(n, s2, ReadSymbol) case None => None case Some((ys, s3)) => Some(((st, ys), s3))
  }

  function ReadObject(s: string): Option<(Object, string)> {
    match ReadHead(s) case None => None case Some((o, s1)) => ReadTables(o, s1)
  }

  /** What comes before the tables; they are still empty. */
  function ReadHead(s: string): Option<(Object, string)> {
    match ReadInt(4, s)
    case None => None
    case Some((id, s1)) =>
      match ReadInt(2, s1)
      case None => None
      case Some((server, s2)) =>
        match ReadList(s2)
        case None => None
        case Some((parents, s3)) =>
          match ReadSymbols(s3)
          case None => None
          case Some(((st, symbols), s4)) => Some((Object(id, server, parents, st, symbols, None, [], None, []), s4))
  }

  function ReadTables(o: Object, s: string): Option<(Object, string)> {
    match ReadCounted(s, ReadMethod)
    case None => None
    case Some((ms, s1)) =>
      match ReadCounted(s1, ReadVerb)
      case None => None
      case Some((verbs, s2)) =>
        match ReadCounted(s2, ReadVardef)
        case None => None
        case Some((vs, s3)) =>
          match ReadCounted(s3, ReadLock)
          case None => None
          case Some((locks, s4)) =>
            Some((o.(methods := Some(MethodTable(o.symbols, ms)), verbs := verbs,
                     vars := Some(VarTable(o.symbols, vs)), locks := locks), s4))
  }
}

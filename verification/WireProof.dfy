/** Reading a packet gives back the message it was composed from. */
module WireProof {
  import opened Wrappers
  import opened Buckets
  import opened Values
  import opened Wire

  // ---------------------------------------------------------------- numbers

  predicate NoDigit(s: string) { s == [] || !IsDigit(s[0]) }

  lemma {:induction false} DigitsRead(n: nat, t: string)
    ensures ReadDigits(Digits(n) + t, 0) == ReadDigits(t, n)
    ensures IsDigit(Digits(n)[0])
    decreases n
  {
    var d := [Digit(n % 10)];
    if n < 10 {
      assert (Digits(n) + t)[1..] == t;
    } else {
      DigitsRead(n / 10, d + t);
      assert Digits(n) + t == Digits(n / 10) + (d + t);
      assert (d + t)[1..] == t;
    }
  }

  lemma Glue(a: string, b: string, c: string, d: string)
    ensures a + b + c + d == a + (b + (c + d))
  {
  }

  lemma DigitsFirst(u: string)
    requires u != [] && IsDigit(u[0])
    ensures ReadDigits(u, 0) == ReadDigits(u[1..], (u[0] - '0') as int)
  {
  }

  lemma NumBack(n: int, t: string)
    requires NoDigit(t)
    ensures ReadNum(Decimal(n) + t) == Some((n, t)) && !IsSpace(Decimal(n)[0])
    ensures IsDigit(Decimal(n)[0]) || Decimal(n)[0] == '-'
  {
    var k := if n < 0 then -n else n;
    var u := Digits(k) + t;
    DigitsRead(k, t);
    DigitsFirst(u);
    if n < 0 { Minus(u, k, t); assert Decimal(n) + t == "-" + u; } else { Plus(u, k, t); }
  }

  lemma Plus(u: string, k: nat, t: string)
    requires u != [] && IsDigit(u[0]) && ReadDigits(u[1..], (u[0] - '0') as int) == (k, t)
    ensures ReadNum(u) == Some((k, t))
  {
  }

  lemma Minus(u: string, k: nat, t: string)
    requires u != [] && IsDigit(u[0]) && ReadDigits(u[1..], (u[0] - '0') as int) == (k, t)
    ensures ReadNum("-" + u) == Some((-(k as int), t))
  {
    assert ("-" + u)[1..] == u;
  }

  // ---------------------------------------------------------------- a space before

  lemma SkipOne(s: string)
    ensures Skip(" " + s) == Skip(s)
  {
    assert (" " + s)[1..] == s;
  }

  lemma NoSkip(s: string)
    requires s != [] && !IsSpace(s[0])
    ensures Skip(s) == s && Skip(" " + s) == s
  {
    SkipOne(s);
  }

  lemma SpacedNum(n: int, t: string)
    requires NoDigit(t)
    ensures ReadNum(" " + (Decimal(n) + t)) == Some((n, t))
  {
    NumBack(n, t);
    SkipOne(Decimal(n) + t);
  }

  // ---------------------------------------------------------------- names

  predicate Ident(s: string) { s != [] && (IsAlpha(s[0]) || s[0] == '_') && forall i :: 0 <= i < |s| ==> IsWord(s[i]) }

  /** A table of servers: their names are identifiers and differ in more than case, their numbers differ. */
  ghost predicate Named(servers: seq<Server>) {
    && (forall i :: 0 <= i < |servers| ==> Ident(servers[i].name) && servers[i].id >= 0)
    && (forall i, j :: 0 <= i < j < |servers| ==> !SameText(servers[i].name, servers[j].name) && servers[i].id != servers[j].id)
  }

  predicate Known(servers: seq<Server>, id: int) { exists i :: 0 <= i < |servers| && servers[i].id == id }

  lemma {:induction false} NameBack(servers: seq<Server>, id: int)
    requires Named(servers) && Known(servers, id)
    ensures Ident(NameOf(servers, id)) && IdOf(servers, NameOf(servers, id)) == id && id >= 0
    ensures exists i :: 0 <= i < |servers| && servers[i].name == NameOf(servers, id)
  {
    var i :| 0 <= i < |servers| && servers[i].id == id;
    if i > 0 {
      assert servers[1..][i - 1] == servers[i];
      NameBack(servers[1..], id);
      var k :| 0 <= k < |servers| - 1 && servers[1..][k].name == NameOf(servers[1..], id);
      assert servers[k + 1].name == NameOf(servers, id);
    }
  }

  predicate NoWord(s: string) { s == [] || !IsWord(s[0]) }

  lemma {:induction false} WordsEnd(s: string, t: string)
    requires (forall i :: 0 <= i < |s| ==> IsWord(s[i])) && NoWord(t)
    ensures WordLength(s + t) == |s|
    decreases |s|
  {
    if s == [] {
      assert s + t == t;
    } else {
      WordsEnd(s[1..], t);
      assert (s + t)[1..] == s[1..] + t;
    }
  }

  lemma IdBack(s: string, t: string)
    requires Ident(s) && NoWord(t)
    ensures ReadId(s + t) == Some((s, t))
  {
    WordsEnd(s, t);
    NoSkip(s + t);
    assert (s + t)[..|s|] == s && (s + t)[|s|..] == t;
  }

  /** A server that both sides know, whatever its number is on each. */
  predicate Linked(here: seq<Server>, there: seq<Server>, id: int) {
    Known(here, id) && IdOf(there, NameOf(here, id)) >= 0
  }

  /** The number that the server of a number here has there. */
  function Renumbered(here: seq<Server>, there: seq<Server>, id: int): int { IdOf(there, NameOf(here, id)) }

  function MovedObj(here: seq<Server>, there: seq<Server>, o: Objid): Objid {
    Objid(o.id, Renumbered(here, there, o.server))
  }

  /** An object composed here with the name of its server is read there with the number of that name. */
  lemma ObjBack(here: seq<Server>, there: seq<Server>, o: Objid, t: string)
    requires Named(here) && Linked(here, there, o.server) && NoWord(t)
    ensures ReadObj(there, ObjText(here, o) + t) == Some((MovedObj(here, there, o), t))
    ensures ReadObj(there, " " + (ObjText(here, o) + t)) == Some((MovedObj(here, there, o), t))
  {
    var name := NameOf(here, o.server);
    NameBack(here, o.server);
    var at := "@" + (name + t);
    var s := "#" + (Decimal(o.id) + at);
    assert ObjText(here, o) + t == s;
    NumBack(o.id, at);
    IdBack(name, t);
    ObjSteps(there, MovedObj(here, there, o), s, Decimal(o.id) + at, at, name + t, name, t);
  }

  lemma ObjSteps(servers: seq<Server>, o: Objid, s: string, s1: string, s2: string, s3: string, name: string, t: string)
    requires s == "#" + s1 && s2 == "@" + s3 && ReadNum(s1) == Some((o.id, s2)) && ReadId(s3) == Some((name, t))
    requires IdOf(servers, name) == o.server && o.server >= 0
    ensures ReadObj(servers, s) == Some((o, t)) && ReadObj(servers, " " + s) == Some((o, t))
  {
    NoSkip(s);
    NoSkip(s2);
    assert s[1..] == s1 && s2[1..] == s3;
  }

  // ---------------------------------------------------------------- text

  /** s as it is read back: every line end is a carriage return and a line feed. */
  function Crlf(s: string): string
    decreases |s|
  {
    if s == [] then []
    else if s[0] == '\r' then "\r\n" + Crlf(if |s| > 1 then s[2..] else [])
    else if s[0] == '\n' then "\r\n" + Crlf(s[1..])
    else [s[0]] + Crlf(s[1..])
  }

  /** Carriage returns and line feeds come in pairs. */
  predicate Lined(s: string)
    decreases |s|
  {
    s == [] || if s[0] == '\r' then |s| > 1 && s[1] == '\n' && Lined(s[2..]) else s[0] != '\n' && Lined(s[1..])
  }

  lemma {:induction false} CrlfSame(s: string)
    ensures Crlf(s) == s <==> Lined(s)
    decreases |s|
  {
    if s != [] {
      if s[0] == '\r' {
        var more := if |s| > 1 then s[2..] else [];
        CrlfSame(more);
        if Crlf(s) == s {
          assert s[1] == Crlf(s)[1];
          assert more == s[2..] && Crlf(more) == Crlf(s)[2..];
        } else if |s| > 1 {
          assert s == [s[0]] + [s[1]] + more;
        }
      } else {
        CrlfSame(s[1..]);
        if s[0] != '\n' {
          assert s == [s[0]] + s[1..];
          assert Crlf(s)[1..] == Crlf(s[1..]);
        } else {
          assert Crlf(s)[0] == '\r';
        }
      }
    }
  }

  lemma EscapedThen(c: char, s: string)
    requires ReadText(s).Some?
    ensures var (t, u) := ReadText(s).value; ReadText("\\" + [c] + s) == Some((Unescape(c) + t, u))
  {
    assert ("\\" + [c] + s)[2..] == s;
  }

  lemma PlainThen(c: char, s: string)
    requires ReadText(s).Some? && c != '"' && c != '\\'
    ensures var (t, u) := ReadText(s).value; ReadText([c] + s) == Some(([c] + t, u))
  {
    assert ([c] + s)[1..] == s;
  }

  lemma QuoteEnds(t: string)
    ensures ReadText("\"" + t) == Some(([], t))
  {
    var u := "\"" + t;
    assert u[0] == '"' && u[1..] == t;
  }

  /** A string is read back with its line ends made whole. */
  lemma {:induction false} TextBack(s: string, t: string)
    ensures ReadText(Escape(s) + ("\"" + t)) == Some((Crlf(s), t))
    decreases |s|
  {
    var q := "\"" + t;
    if s == [] {
      QuoteEnds(t);
      assert Escape(s) == [] && Escape(s) + q == q;
    } else {
      TextBack(After(s), t);
      var u := Escape(After(s)) + q;
      if Special(s[0]) {
        EscapedThen(Sign(s[0]), u);
        EscapedHead(s);
        Tail("\\" + [Sign(s[0])], Escape(After(s)), q);
      } else {
        PlainThen(s[0], u);
        PlainHead(s);
        Tail([s[0]], Escape(After(s)), q);
      }
    }
  }

  lemma Tail(a: string, b: string, c: string)
    ensures a + b + c == a + (b + c)
  {
  }

  /** What string_backslash goes on with. */
  function After(s: string): string
    requires s != []
  {
    if s[0] != '\r' then s[1..] else if |s| > 1 then s[2..] else []
  }

  predicate Special(c: char) { c in {'\r', '\n', '\t', '\\', '"'} }

  function Sign(c: char): char { if c == '\r' || c == '\n' then 'n' else if c == '\t' then 't' else c }

  lemma EscapedHead(s: string)
    requires s != [] && Special(s[0])
    ensures Escape(s) == "\\" + [Sign(s[0])] + Escape(After(s)) && Crlf(s) == Unescape(Sign(s[0])) + Crlf(After(s))
  {
    var sign := "\\" + [Sign(s[0])];
    if s[0] == '\r' || s[0] == '\n' {
      assert sign == "\\n";
    } else {
      assert sign == Escape1(s[0]);
    }
  }

  lemma PlainHead(s: string)
    requires s != [] && !Special(s[0])
    ensures Escape(s) == [s[0]] + Escape(After(s)) && Crlf(s) == [s[0]] + Crlf(After(s))
  {
  }

  lemma StringBack(s: string, t: string)
    ensures ReadString(Quoted(s) + t) == Some((Crlf(s), t)) && ReadString(" " + (Quoted(s) + t)) == Some((Crlf(s), t))
  {
    var u := Escape(s) + ("\"" + t);
    TextBack(s, t);
    assert Quoted(s) + t == "\"" + u && ("\"" + u)[1..] == u;
    NoSkip("\"" + u);
  }

  // ---------------------------------------------------------------- errors

  /** What tells the error names apart, whatever their case: length, and three of their letters. */
  function Place(n: nat, a: char, b: char, c: char): int {
    if n == 5 then if a == 'd' then 4 else 9
    else if n == 6 then if a == 'n' then 0 else if a == 'p' then 10 else if a == 'f' then 19 else if b == 'y' then 1 else 23
    else if n == 7 then
      if a == 'r' then 2 else if a == 'v' then 7 else if a == 'o' then 13 else if a == 'n' then 21
      else if a == 't' then 22 else 24
    else if n == 8 then if a == 'i' then 3 else if a == 'm' then 5 else 8
    else if n == 9 then if a == 'm' then 14 else if a == 't' then 15 else 20
    else if a == 'm' then 6 else if a == 'i' then 18
    else if b == 'e' then if c == 'n' then 11 else 12 else if c == 'n' then 16 else 17
  }

  function PlaceOf(s: string): int
    requires |s| >= 4
  {
    Place(|s|, Lower(s[2]), Lower(s[3]), Lower(s[|s| - 2]))
  }

  predicate ErrNamed(e: int)
    requires 0 <= e < |ERRORS|
  {
    var s := ERRORS[e];
    |s| >= 4 && s[0] == 'E' && ' ' !in s && PlaceOf(s) == e
  }

  lemma ErrNames(e: int)
    requires 0 <= e < |ERRORS|
    ensures ErrNamed(e)
  {
    if e < 8 { ErrNames0(e); } else if e < 16 { ErrNames8(e); } else { ErrNames16(e); }
  }

  lemma ErrNames0(e: int)
    requires 0 <= e < 8
    ensures ErrNamed(e)
  {
    if e == 0 { } else if e == 1 { } else if e == 2 { } else if e == 3 { } else if e == 4 { } else if e == 5 { }
    else if e == 6 { } else { }
  }

  lemma ErrNames8(e: int)
    requires 8 <= e < 16
    ensures ErrNamed(e)
  {
    if e == 8 { } else if e == 9 { } else if e == 10 { } else if e == 11 { } else if e == 12 { } else if e == 13 { }
    else if e == 14 { } else { }
  }

  lemma ErrNames16(e: int)
    requires 16 <= e < 25
    ensures ErrNamed(e)
  {
    if e == 16 { } else if e == 17 { } else if e == 18 { } else if e == 19 { } else if e == 20 { } else if e == 21 { }
    else if e == 22 { } else if e == 23 { } else { }
  }

  lemma PlacesDiffer(s: string, t: string)
    requires |s| >= 4 && |t| >= 4 && PlaceOf(s) != PlaceOf(t)
    ensures !SameText(s, t)
  {
  }

  lemma {:induction false} ErrIdBack(e: int, i: nat)
    requires i <= e < |ERRORS|
    ensures ErrIdFrom(ERRORS[e], i) == e
    decreases e - i
  {
    if i < e {
      ErrNames(e);
      ErrNames(i);
      PlacesDiffer(ERRORS[i], ERRORS[e]);
      ErrIdBack(e, i + 1);
    }
  }

  lemma {:induction false} SpaceAfter(s: string, t: string)
    requires ' ' !in s && (t == [] || t[0] == ' ')
    ensures UpToSpace(s + t) == |s|
    decreases |s|
  {
    if s == [] {
      assert s + t == t;
    } else {
      SpaceAfter(s[1..], t);
      assert (s + t)[1..] == s[1..] + t;
    }
  }

  lemma ErrBack(e: int, t: string)
    requires 0 <= e < |ERRORS| && (t == [] || t[0] == ' ')
    ensures ReadErr(ErrName(e) + t) == Some((e, t)) && ErrName(e) != [] && ErrName(e)[0] == 'E'
  {
    var s := ERRORS[e];
    ErrNames(e);
    ErrIdBack(e, 0);
    SpaceAfter(s, t);
    NoSkip(s + t);
    assert (s + t)[..|s|] == s && (s + t)[|s|..] == t;
  }

  // ---------------------------------------------------------------- values

  /** What a packet carries unchanged, apart from the order of map chains. */
  ghost predicate Sendable(here: seq<Server>, there: seq<Server>, v: Var) {
    match v
    case Str(s) => Lined(s)
    case Num(_) => true
    case Obj(_, server) => Linked(here, there, server)
    case List(els) => SendableEls(here, there, els)
    case Map(_, pairs) => SendablePairs(here, there, pairs)
    case Err(e) => 0 <= e < |ERRORS|
    case Pc(_) => false
  }

  ghost predicate SendableEls(here: seq<Server>, there: seq<Server>, els: seq<Var>) {
    els == [] || (Sendable(here, there, els[|els| - 1]) && SendableEls(here, there, els[..|els| - 1]))
  }

  ghost predicate SendablePairs(here: seq<Server>, there: seq<Server>, pairs: seq<Pair>) {
    pairs == [] || (SendablePair(here, there, pairs[|pairs| - 1]) && SendablePairs(here, there, pairs[..|pairs| - 1]))
  }

  ghost predicate SendablePair(here: seq<Server>, there: seq<Server>, p: Pair) {
    Sendable(here, there, p.key) && Sendable(here, there, p.val)
  }

  /** The value with the numbers that its servers have there. */
  function Moved(here: seq<Server>, there: seq<Server>, v: Var): Var {
    match v
    case Obj(id, server) => Obj(id, Renumbered(here, there, server))
    case List(els) => List(MovedEls(here, there, els))
    case Map(size, pairs) => Map(size, MovedPairs(here, there, pairs))
    case _ => v
  }

  function MovedEls(here: seq<Server>, there: seq<Server>, els: seq<Var>): (r: seq<Var>)
    ensures |r| == |els| && forall i :: 0 <= i < |els| ==> r[i] == Moved(here, there, els[i])
  {
    if els == [] then []
    else MovedEls(here, there, els[..|els| - 1]) + [Moved(here, there, els[|els| - 1])]
  }

  function MovedPairs(here: seq<Server>, there: seq<Server>, pairs: seq<Pair>): (r: seq<Pair>)
    ensures |r| == |pairs| && forall i :: 0 <= i < |pairs| ==> r[i] == MovedPair(here, there, pairs[i])
  {
    if pairs == [] then []
    else MovedPairs(here, there, pairs[..|pairs| - 1]) + [MovedPair(here, there, pairs[|pairs| - 1])]
  }

  function MovedPair(here: seq<Server>, there: seq<Server>, p: Pair): Pair {
    Pair(Moved(here, there, p.key), Moved(here, there, p.val))
  }

  lemma {:induction false} MovedKey(here: seq<Server>, there: seq<Server>, v: Var)
    requires NoMaps(v)
    ensures NoMaps(Moved(here, there, v))
  {
    if v.List? { MovedKeys(here, there, v.els); }
  }

  lemma {:induction false} MovedKeys(here: seq<Server>, there: seq<Server>, els: seq<Var>)
    requires NoMapsList(els)
    ensures NoMapsList(MovedEls(here, there, els))
  {
    if els != [] {
      var n := |els| - 1;
      MovedKey(here, there, els[n]);
      MovedKeys(here, there, els[..n]);
      assert MovedEls(here, there, els)[..n] == MovedEls(here, there, els[..n]);
    }
  }

  ghost predicate Fine(here: seq<Server>, there: seq<Server>, v: Var) { Sendable(here, there, v) && GoodMaps(v) }

  /** One value, between two spaces. */
  lemma {:induction false} VarBack(here: seq<Server>, there: seq<Server>, v: Var, t: string)
    requires Named(here) && Fine(here, there, v)
    ensures ReadVar(there, " " + (Compose(here, v) + (" " + t))) == Some((Norm(Moved(here, there, v)), " " + t))
    decreases v, 1
  {
    var s := Compose(here, v) + (" " + t);
    match v {
      case List(els) =>
        ListBack(here, there, els, " " + t);
        ReadsList(there, s);
      case Map(size, pairs) =>
        MapBack(here, there, size, pairs, " " + t);
        ReadsMap(there, s);
      case _ => SimpleBack(here, there, v, t);
    }
  }

  lemma ReadsList(servers: seq<Server>, s: string)
    requires s != [] && s[0] == '{' && ReadList(servers, s).Some?
    ensures ReadVar(servers, " " + s) == Some((List(ReadList(servers, s).value.0), ReadList(servers, s).value.1))
  {
    NoSkip(s);
  }

  lemma ReadsMap(servers: seq<Server>, s: string)
    requires s != [] && s[0] == '['
    ensures ReadVar(servers, " " + s) == ReadMap(servers, s)
  {
    NoSkip(s);
  }

  lemma SimpleBack(here: seq<Server>, there: seq<Server>, v: Var, t: string)
    requires Named(here) && Sendable(here, there, v) && !v.List? && !v.Map?
    ensures ReadVar(there, " " + (Compose(here, v) + (" " + t))) == Some((Moved(here, there, v), " " + t))
  {
    var s := Compose(here, v) + (" " + t);
    match v {
      case Str(x) =>
        CrlfSame(x);
        StringBack(x, " " + t);
        assert s[0] == '"';
        NoSkip(s);
      case Num(n) =>
        NumBack(n, " " + t);
        assert s[0] == Decimal(n)[0];
        NoSkip(s);
      case Obj(id, server) =>
        ObjBack(here, there, Objid(id, server), " " + t);
        assert s[0] == '#';
        NoSkip(s);
      case Err(e) =>
        ErrBack(e, " " + t);
        assert s[0] == 'E';
        NoSkip(s);
    }
  }

  /** Elements, each after a space. */
  lemma {:induction false} ElsBack(here: seq<Server>, there: seq<Server>, els: seq<Var>, t: string)
    requires Named(here) && SendableEls(here, there, els) && GoodList(els)
    ensures ReadEls(there, " " + (ComposeEls(here, els) + t), |els|) == Some((NormList(MovedEls(here, there, els)), " " + t))
    decreases els, 0
  {
    if els == [] {
      assert ComposeEls(here, els) + t == t;
    } else {
      var n := |els| - 1;
      var more := Compose(here, els[n]) + (" " + t);
      ElsBack(here, there, els[..n], more);
      VarBack(here, there, els[n], t);
      Glue(ComposeEls(here, els[..n]), Compose(here, els[n]), " ", t);
      var moved := MovedEls(here, there, els);
      assert moved[..n] == MovedEls(here, there, els[..n]);
      ElsThen(there, ComposeEls(here, els) + t, moved, " " + more, " " + t);
    }
  }

  lemma ElsThen(servers: seq<Server>, s: string, els: seq<Var>, x: string, y: string)
    requires els != []
    requires ReadEls(servers, " " + s, |els| - 1) == Some((NormList(els[..|els| - 1]), x))
    requires ReadVar(servers, x) == Some((Norm(els[|els| - 1]), y))
    ensures ReadEls(servers, " " + s, |els|) == Some((NormList(els), y))
  {
  }

  /** A list or a map: its mark, a space, its length, a space, what is in it, and the mark that ends it. */
  lemma HeadBack(open: char, n: int, body: string, close: char, t: string)
    requires !IsSpace(open)
    ensures var s := Enclosed(open, n, body, close) + t;
            && Skip(s) == s && s != [] && s[0] == open && Enclosed(open, n, body, close)[0] == open
            && ReadNum(s[1..]) == Some((n, " " + (body + ([close] + t))))
  {
    var s, tail := Enclosed(open, n, body, close) + t, body + ([close] + t);
    SpacedNum(n, " " + tail);
    NoSkip(s);
    EnclosedIs(open, Decimal(n), body, close, t);
    assert ([open] + (" " + (Decimal(n) + (" " + tail))))[1..] == " " + (Decimal(n) + (" " + tail));
  }

  lemma EnclosedIs(open: char, d: string, body: string, close: char, t: string)
    ensures [open] + " " + d + " " + body + [close] + t == [open] + (" " + (d + (" " + (body + ([close] + t)))))
  {
    Glue([open], " ", d, " " + body + [close] + t);
    Glue(" ", body, [close], t);
    Glue([open] + " " + d, " ", body, [close] + t);
  }

  lemma CloseBack(c: char, t: string)
    requires !IsSpace(c)
    ensures ReadClose(" " + ([c] + t), c) == Some(t)
  {
    NoSkip([c] + t);
    assert ([c] + t)[1..] == t;
  }

  lemma {:induction false} ListBack(here: seq<Server>, there: seq<Server>, els: seq<Var>, t: string)
    requires Named(here) && SendableEls(here, there, els) && GoodList(els)
    ensures ReadList(there, ComposeList(here, els) + t) == Some((NormList(MovedEls(here, there, els)), t))
    ensures ComposeList(here, els)[0] == '{'
    decreases els, 1
  {
    HeadBack('{', |els|, ComposeEls(here, els), '}', t);
    ElsBack(here, there, els, "}" + t);
    CloseBack('}', t);
  }

  lemma {:induction false} PairsBack(here: seq<Server>, there: seq<Server>, pairs: seq<Pair>, t: string)
    requires Named(here) && SendablePairs(here, there, pairs) && GoodPairs(pairs)
    ensures ReadPairs(there, " " + (ComposePairs(here, pairs) + t), |pairs|) == Some((NormPairs(MovedPairs(here, there, pairs)), " " + t))
    decreases pairs, 0
  {
    if pairs == [] {
      assert ComposePairs(here, pairs) + t == t;
    } else {
      var n := |pairs| - 1;
      var p := pairs[n];
      var more := ComposePair(here, p) + t;
      PairsBack(here, there, pairs[..n], more);
      PairBack(here, there, p, t);
      PairsText(here, pairs, t);
      var moved := MovedPairs(here, there, pairs);
      assert moved[..n] == MovedPairs(here, there, pairs[..n]);
      MovedKey(here, there, p.key);
      PairsThen(there, ComposePairs(here, pairs) + t, moved, " " + more, " " + (Compose(here, p.val) + (" " + t)), " " + t);
    }
  }

  lemma Spaced(k: string, v: string, t: string)
    ensures k + " " + v + " " + t == k + (" " + (v + (" " + t)))
  {
    Glue(k, " ", v, " " + t);
    Glue(k + " ", v, " ", t);
  }

  lemma PairsText(servers: seq<Server>, pairs: seq<Pair>, t: string)
    requires pairs != []
    ensures var n := |pairs| - 1;
            ComposePairs(servers, pairs) + t == ComposePairs(servers, pairs[..n]) + (ComposePair(servers, pairs[n]) + t)
  {
  }

  lemma {:induction false} PairBack(here: seq<Server>, there: seq<Server>, p: Pair, t: string)
    requires Named(here) && SendablePair(here, there, p) && GoodPair(p)
    ensures var u := " " + (Compose(here, p.val) + (" " + t));
            && ReadVar(there, " " + (ComposePair(here, p) + t)) == Some((Moved(here, there, p.key), u))
            && ReadVar(there, u) == Some((Norm(Moved(here, there, p.val)), " " + t))
    decreases p
  {
    var more := Compose(here, p.val) + (" " + t);
    NormOfKey(p.key);
    MovedKey(here, there, p.key);
    NormOfKey(Moved(here, there, p.key));
    VarBack(here, there, p.key, more);
    VarBack(here, there, p.val, t);
    Spaced(Compose(here, p.key), Compose(here, p.val), t);
  }

  lemma PairsThen(servers: seq<Server>, s: string, pairs: seq<Pair>, x: string, y: string, z: string)
    requires pairs != [] && NoMaps(pairs[|pairs| - 1].key)
    requires ReadPairs(servers, " " + s, |pairs| - 1) == Some((NormPairs(pairs[..|pairs| - 1]), x))
    requires ReadVar(servers, x) == Some((pairs[|pairs| - 1].key, y))
    requires ReadVar(servers, y) == Some((Norm(pairs[|pairs| - 1].val), z))
    ensures ReadPairs(servers, " " + s, |pairs|) == Some((NormPairs(pairs), z))
  {
    NormOfKey(pairs[|pairs| - 1].key);
  }

  lemma {:induction false} MapBack(here: seq<Server>, there: seq<Server>, size: nat, pairs: seq<Pair>, t: string)
    requires Named(here) && SendablePairs(here, there, pairs) && GoodPairs(pairs)
    ensures ReadMap(there, Compose(here, Map(size, pairs)) + t) == Some((Norm(Moved(here, there, Map(size, pairs))), t))
    ensures Compose(here, Map(size, pairs))[0] == '['
    decreases pairs, 1
  {
    hide Named, Rehash, Sendable, Enclosed, TableSize;
    HeadBack('[', |pairs|, ComposePairs(here, pairs), ']', t);
    PairsBack(here, there, pairs, "]" + t);
    CloseBack(']', t);
  }

  // ---------------------------------------------------------------- messages

  ghost predicate SendableMessage(here: seq<Server>, there: seq<Server>, m: Message) {
    && Linked(here, there, m.player.server) && Linked(here, there, m.from.server) && Linked(here, there, m.to.server)
    && Lined(m.message) && SendableEls(here, there, m.args) && GoodList(m.args)
  }

  /** The message as the other side has it: every server, also inside the arguments, has the number that its name
      has there, the chains of maps are in the order of a new table, and methods are looked for on the object the
      message is to. */
  function Received(here: seq<Server>, there: seq<Server>, m: Message): Message {
    var to := MovedObj(here, there, m.to);
    m.(player := MovedObj(here, there, m.player), from := MovedObj(here, there, m.from), to := to,
       args := NormList(MovedEls(here, there, m.args)), on := to)
  }

  /** parse_message on one server gives back what send_message composed on another. */
  lemma PacketBack(here: seq<Server>, there: seq<Server>, m: Message)
    requires Named(here) && SendableMessage(here, there, m)
    ensures Parse(there, Packet(here, m)) == Some(Received(here, there, m))
  {
    hide Named, Linked, Digits, Escape, Enclosed, Skip;
    var s7 := ComposeList(here, m.args) + "\n";
    var s6 := Quoted(m.message) + (" " + s7);
    var s5 := ObjText(here, m.to) + (" " + s6);
    var s4 := ObjText(here, m.from) + (" " + s5);
    var s3 := ObjText(here, m.player) + (" " + s4);
    var s2 := Decimal(m.ticks) + (" " + s3);
    var s1 := Decimal(m.age) + (" " + s2);
    NumBack(m.msgid, " " + s1);
    SpacedNum(m.age, " " + s2);
    SpacedNum(m.ticks, " " + s3);
    ObjBack(here, there, m.player, " " + s4);
    ObjBack(here, there, m.from, " " + s5);
    ObjBack(here, there, m.to, " " + s6);
    StringBack(m.message, " " + s7);
    CrlfSame(m.message);
    ListBack(here, there, m.args, "\n");
    SpacedList(there, s7);
    PacketIs(here, m, s1, s2, s3, s4, s5, s6, s7);
    ParseSteps(there, Received(here, there, m), Packet(here, m), " " + s1, " " + s2, " " + s3, " " + s4,
               " " + s5, " " + s6, " " + s7);
  }

  lemma ParseSteps(servers: seq<Server>, m: Message, s: string, s1: string, s2: string, s3: string, s4: string, s5: string,
      s6: string, s7: string)
    requires ReadNum(s) == Some((m.msgid, s1)) && ReadNum(s1) == Some((m.age, s2)) && ReadNum(s2) == Some((m.ticks, s3))
    requires ReadObj(servers, s3) == Some((m.player, s4)) && ReadObj(servers, s4) == Some((m.from, s5))
    requires ReadObj(servers, s5) == Some((m.to, s6)) && ReadString(s6) == Some((m.message, s7))
    requires ReadList(servers, s7).Some? && ReadList(servers, s7).value.0 == m.args && m.on == m.to
    ensures Parse(servers, s) == Some(m)
  {
  }

  lemma SpacedList(servers: seq<Server>, s: string)
    ensures ReadList(servers, " " + s) == ReadList(servers, s)
  {
    SkipOne(s);
  }

  lemma ThreeIs(a: string, b: string, c: string, t: string)
    ensures Three(a, b, c) + t == a + (" " + (b + (" " + (c + (" " + t)))))
  {
    Glue(a, " ", b, " " + c + " " + t);
    Glue(" ", c, " ", t);
    Glue(a + " " + b, " ", c, " " + t);
  }

  lemma PacketIs(servers: seq<Server>, m: Message, s1: string, s2: string, s3: string, s4: string, s5: string,
      s6: string, s7: string)
    requires s7 == ComposeList(servers, m.args) + "\n" && s6 == Quoted(m.message) + (" " + s7)
    requires s5 == ObjText(servers, m.to) + (" " + s6) && s4 == ObjText(servers, m.from) + (" " + s5)
    requires s3 == ObjText(servers, m.player) + (" " + s4) && s2 == Decimal(m.ticks) + (" " + s3)
    requires s1 == Decimal(m.age) + (" " + s2)
    ensures Packet(servers, m) == Decimal(m.msgid) + (" " + s1)
  {
    ThreeIs(Decimal(m.msgid), Decimal(m.age), Decimal(m.ticks), s3);
    ThreeIs(ObjText(servers, m.player), ObjText(servers, m.from), ObjText(servers, m.to), s6);
    SixIs(Three(Decimal(m.msgid), Decimal(m.age), Decimal(m.ticks)),
          Three(ObjText(servers, m.player), ObjText(servers, m.from), ObjText(servers, m.to)), Quoted(m.message), s7);
  }

  lemma SixIs(a: string, b: string, q: string, s: string)
    ensures a + b + (q + " " + s) == a + (b + (q + (" " + s)))
  {
  }

  // ---------------------------------------------------------------- between the two tables

  lemma {:induction false} NameFinds(servers: seq<Server>, name: string)
    requires Named(servers) && IdOf(servers, name) >= 0
    ensures Known(servers, IdOf(servers, name)) && SameText(NameOf(servers, IdOf(servers, name)), name)
  {
    if !SameText(servers[0].name, name) {
      NameFinds(servers[1..], name);
      var i :| 0 <= i < |servers| - 1 && servers[1..][i].id == IdOf(servers, name);
      assert servers[i + 1].id == IdOf(servers, name);
    } else {
      assert servers[0].id == IdOf(servers, name);
    }
  }

  lemma {:induction false} SameName(servers: seq<Server>, name: string, name': string)
    requires SameText(name, name')
    ensures IdOf(servers, name) == IdOf(servers, name')
  {
    if servers != [] { SameName(servers[1..], name, name'); }
  }

  /** A number taken to the other side and back is what it was. */
  lemma RenumberedBack(here: seq<Server>, there: seq<Server>, id: int)
    requires Named(here) && Named(there) && Linked(here, there, id)
    ensures var far := Renumbered(here, there, id); Linked(there, here, far) && Renumbered(there, here, far) == id
  {
    var name := NameOf(here, id);
    NameBack(here, id);
    NameFinds(there, name);
    SameName(here, NameOf(there, Renumbered(here, there, id)), name);
  }

  /** So is a value. */
  lemma {:induction false} MovedBack(here: seq<Server>, there: seq<Server>, v: Var)
    requires Named(here) && Named(there) && Sendable(here, there, v)
    ensures Moved(there, here, Moved(here, there, v)) == v
    decreases v, 1
  {
    match v {
      case Obj(_, server) => RenumberedBack(here, there, server);
      case List(els) => MovedElsBack(here, there, els);
      case Map(_, pairs) => MovedPairsBack(here, there, pairs);
      case _ =>
    }
  }

  lemma {:induction false} MovedElsBack(here: seq<Server>, there: seq<Server>, els: seq<Var>)
    requires Named(here) && Named(there) && SendableEls(here, there, els)
    ensures MovedEls(there, here, MovedEls(here, there, els)) == els
    decreases els, 0
  {
    hide Moved, Named, Sendable, Linked;
    if els != [] {
      var n := |els| - 1;
      MovedBack(here, there, els[n]);
      MovedElsBack(here, there, els[..n]);
      assert MovedEls(here, there, els)[..n] == MovedEls(here, there, els[..n]);
    }
  }

  lemma {:induction false} MovedPairsBack(here: seq<Server>, there: seq<Server>, pairs: seq<Pair>)
    requires Named(here) && Named(there) && SendablePairs(here, there, pairs)
    ensures MovedPairs(there, here, MovedPairs(here, there, pairs)) == pairs
    decreases pairs, 0
  {
    if pairs != [] {
      var n := |pairs| - 1;
      MovedPairBack(here, there, pairs[n]);
      MovedPairsBack(here, there, pairs[..n]);
      assert MovedPairs(here, there, pairs)[..n] == MovedPairs(here, there, pairs[..n]);
    }
  }

  lemma {:induction false} MovedPairBack(here: seq<Server>, there: seq<Server>, p: Pair)
    requires Named(here) && Named(there) && SendablePair(here, there, p)
    ensures MovedPair(there, here, MovedPair(here, there, p)) == p
    decreases p, 2
  {
    MovedBack(here, there, p.key);
    MovedBack(here, there, p.val);
  }

  lemma {:induction false} VarEqMoved(here: seq<Server>, there: seq<Server>, a: Var, b: Var)
    requires VarEq(a, b)
    ensures VarEq(Moved(here, there, a), Moved(here, there, b))
    decreases a
  {
    if a.List? { ListEqMoved(here, there, a.els, b.els); }
  }

  lemma {:induction false} ListEqMoved(here: seq<Server>, there: seq<Server>, x: seq<Var>, y: seq<Var>)
    requires ListEq(x, y)
    ensures ListEq(MovedEls(here, there, x), MovedEls(here, there, y))
    decreases x
  {
    if x != [] {
      VarEqMoved(here, there, x[0], y[0]);
      ListEqMoved(here, there, x[1..], y[1..]);
      assert MovedEls(here, there, x)[1..] == MovedEls(here, there, x[1..]);
      assert MovedEls(here, there, y)[1..] == MovedEls(here, there, y[1..]);
    }
  }

  /** Values compare there as they do here. */
  lemma VarEqSame(here: seq<Server>, there: seq<Server>, a: Var, b: Var)
    requires Named(here) && Named(there) && Sendable(here, there, a) && Sendable(here, there, b)
    ensures VarEq(Moved(here, there, a), Moved(here, there, b)) <==> VarEq(a, b)
  {
    MovedBack(here, there, a);
    MovedBack(here, there, b);
    if VarEq(a, b) { VarEqMoved(here, there, a, b); }
    if VarEq(Moved(here, there, a), Moved(here, there, b)) {
      VarEqMoved(there, here, Moved(here, there, a), Moved(here, there, b));
    }
  }

  lemma {:induction false} SendableAt(here: seq<Server>, there: seq<Server>, pairs: seq<Pair>)
    requires SendablePairs(here, there, pairs)
    ensures forall i :: 0 <= i < |pairs| ==> SendablePair(here, there, pairs[i])
    decreases |pairs|
  {
    if pairs != [] {
      var n := |pairs| - 1;
      SendableAt(here, there, pairs[..n]);
      assert forall i :: 0 <= i < n ==> pairs[..n][i] == pairs[i];
    }
  }

  lemma {:induction false} SlotMoved(here: seq<Server>, there: seq<Server>, size: nat, pairs: seq<Pair>, key: Var)
    requires size > 0 && Named(here) && Named(there) && Sendable(here, there, key)
    requires forall i :: 0 <= i < |pairs| ==> SendablePair(here, there, pairs[i])
    ensures Slot(size, MovedPairs(here, there, pairs), Moved(here, there, key)) == Slot(size, pairs, key)
    decreases |pairs|
  {
    if pairs != [] {
      assert SendablePair(here, there, pairs[0]);
      VarEqSame(here, there, key, pairs[0].key);
      assert MovedPairs(here, there, pairs)[1..] == MovedPairs(here, there, pairs[1..]);
      SlotMoved(here, there, size, pairs[1..], key);
    }
  }

  lemma {:induction false} MovedGoodPairs(here: seq<Server>, there: seq<Server>, pairs: seq<Pair>)
    requires Named(here) && Named(there) && SendablePairs(here, there, pairs) && GoodPairs(pairs)
    ensures GoodPairs(MovedPairs(here, there, pairs))
    decreases pairs, 0
  {
    if pairs != [] {
      var n := |pairs| - 1;
      MovedGoodPair(here, there, pairs[n]);
      MovedGoodPairs(here, there, pairs[..n]);
      assert MovedPairs(here, there, pairs)[..n] == MovedPairs(here, there, pairs[..n]);
    }
  }

  lemma {:induction false} MovedGoodPair(here: seq<Server>, there: seq<Server>, p: Pair)
    requires Named(here) && Named(there) && SendablePair(here, there, p) && GoodPair(p)
    ensures GoodPair(MovedPair(here, there, p))
    decreases p, 2
  {
    MovedKey(here, there, p.key);
    MovedGood(here, there, p.val);
  }

  lemma {:induction false} MovedGoodEls(here: seq<Server>, there: seq<Server>, els: seq<Var>)
    requires Named(here) && Named(there) && SendableEls(here, there, els) && GoodList(els)
    ensures GoodList(MovedEls(here, there, els))
    decreases els, 0
  {
    if els != [] {
      var n := |els| - 1;
      MovedGood(here, there, els[n]);
      MovedGoodEls(here, there, els[..n]);
      assert MovedEls(here, there, els)[..n] == MovedEls(here, there, els[..n]);
    }
  }

  lemma {:induction false} MovedGood(here: seq<Server>, there: seq<Server>, v: Var)
    requires Named(here) && Named(there) && Fine(here, there, v)
    ensures GoodMaps(Moved(here, there, v))
    decreases v, 1
  {
    match v {
      case List(els) => MovedGoodEls(here, there, els);
      case Map(_, pairs) =>
        MovedGoodPairs(here, there, pairs);
        MovedDistinct(here, there, pairs);
      case _ =>
    }
  }

  lemma HashMoved(here: seq<Server>, there: seq<Server>, v: Var)
    ensures HashVar(Moved(here, there, v)) == HashVar(v)
  {
  }

  lemma MovedDistinct(here: seq<Server>, there: seq<Server>, pairs: seq<Pair>)
    requires Named(here) && Named(there) && SendablePairs(here, there, pairs) && DistinctKeys(pairs)
    ensures DistinctKeys(MovedPairs(here, there, pairs))
  {
    var ps := MovedPairs(here, there, pairs);
    SendableAt(here, there, pairs);
    forall i, j | 0 <= i < j < |ps| ensures !VarEq(ps[j].key, ps[i].key) {
      assert SendablePair(here, there, pairs[i]) && SendablePair(here, there, pairs[j]);
      VarEqSame(here, there, pairs[j].key, pairs[i].key);
    }
    forall i | 0 <= i < |ps| ensures HashVar(ps[i].key) >= 0 {
      HashMoved(here, there, pairs[i].key);
    }
  }

  lemma MovedHashes(here: seq<Server>, there: seq<Server>, pairs: seq<Pair>, key: Var)
    requires Named(here) && Named(there) && Sendable(here, there, key)
    requires forall i :: 0 <= i < |pairs| ==> SendablePair(here, there, pairs[i])
    requires forall p :: p in pairs && VarEq(key, p.key) ==> HashVar(key) == HashVar(p.key)
    ensures var k := Moved(here, there, key);
            forall p :: p in MovedPairs(here, there, pairs) && VarEq(k, p.key) ==> HashVar(k) == HashVar(p.key)
  {
    hide VarEq, HashVar, Named;
    var ps, k := MovedPairs(here, there, pairs), Moved(here, there, key);
    HashMoved(here, there, key);
    forall p | p in ps && VarEq(k, p.key) ensures HashVar(k) == HashVar(p.key) {
      var i :| 0 <= i < |ps| && ps[i] == p;
      assert SendablePair(here, there, pairs[i]);
      VarEqSame(here, there, key, pairs[i].key);
      HashMoved(here, there, pairs[i].key);
      assert pairs[i] in pairs;
    }
  }

  /** The map that arrives answers a key, with the servers' numbers there, as the map that was sent does. */
  lemma MapArrives(here: seq<Server>, there: seq<Server>, size: nat, pairs: seq<Pair>, key: Var)
    requires Named(here) && Named(there) && Fine(here, there, Map(size, pairs)) && Sendable(here, there, key)
    requires forall p :: p in pairs && VarEq(key, p.key) ==> HashVar(key) == HashVar(p.key)
    ensures var m := Norm(Moved(here, there, Map(size, pairs)));
            && m.size > 0 && |m.pairs| == |pairs|
            && MapFind(m.size, m.pairs, Moved(here, there, key)) ==
               match MapFind(size, pairs, key) case None => None case Some(v) => Some(Norm(Moved(here, there, v)))
  {
    var ps, k := MovedPairs(here, there, pairs), Moved(here, there, key);
    hide VarEq, HashVar, Slot, Norm, Named, GoodPairs, DistinctKeys, Rehash, SendablePair;
    MovedGood(here, there, Map(size, pairs));
    SendableAt(here, there, pairs);
    MovedHashes(here, there, pairs, key);
    NormMapAnswers(size, ps, k);
    SlotMoved(here, there, size, pairs, key);
  }
}

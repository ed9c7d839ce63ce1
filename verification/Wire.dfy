/** The text of messages between servers (src/src/message.c:326-343, 585-905, src/src/string.c:131-245,
    src/src/servers.c:203-227, src/src/error.c:10-86): what is written and how it is read. */
module Wire {
  import opened Wrappers
  import opened Values

  /** An entry of the server table. */
  datatype Server = Server(name: string, id: int)

  datatype Objid = Objid(id: int, server: int)

  datatype Message = Message(msgid: int, age: int, ticks: int, player: Objid, from: Objid, to: Objid,
                             message: string, args: seq<Var>, on: Objid)

  // ---------------------------------------------------------------- characters

  predicate IsSpace(c: char) { c == ' ' || 9 as char <= c <= 13 as char }

  predicate IsDigit(c: char) { '0' <= c <= '9' }

  predicate IsAlpha(c: char) { 'a' <= c <= 'z' || 'A' <= c <= 'Z' }

  predicate IsWord(c: char) { IsAlpha(c) || IsDigit(c) || c == '_' }

  // ---------------------------------------------------------------- names

  /** serv_id2name; the empty string for a server that is not in the table. */
  function NameOf(servers: seq<Server>, id: int): string {
    if servers == [] then "" else if servers[0].id >= 0 && servers[0].id == id then servers[0].name
    else NameOf(servers[1..], id)
  }

  /** serv_name2id; -1 when no server has the name. */
  function IdOf(servers: seq<Server>, name: string): int {
    if servers == [] then -1 else if SameText(servers[0].name, name) then servers[0].id else IdOf(servers[1..], name)
  }

  /** The names of the errors, by code. */
  const ERRORS: seq<string> :=
    ["E_NONE", "E_TYPE", "E_RANGE", "E_INVIND", "E_DIV", "E_MAXREC", "E_METHODNF", "E_VARNF", "E_VERBNF", "E_FOR",
     "E_PERM", "E_SERVERNF", "E_SERVERDN", "E_OBJNF", "E_MESSAGE", "E_TIMEOUT", "E_STACKUND", "E_STACKOVR",
     "E_INTERNAL", "E_FILE", "E_ARGTYPE", "E_NARGS", "E_TICKS", "E_TERM", "E_MAPNF"]

  function ErrName(err: int): string { if 0 <= err < |ERRORS| then ERRORS[err] else "UNKNOWN_ERROR" }

  function ErrId(name: string): int { ErrIdFrom(name, 0) }

  function ErrIdFrom(name: string, i: nat): int
    requires i <= |ERRORS|
    decreases |ERRORS| - i
  {
    if i == |ERRORS| then -1 else if SameText(ERRORS[i], name) then i else ErrIdFrom(name, i + 1)
  }

  // ---------------------------------------------------------------- writing

  function Digit(d: nat): char
    requires d < 10
  {
    '0' + d as char
  }

  function Digits(n: nat): (s: string)
    ensures s != []
  {
    if n < 10 then [Digit(n)] else Digits(n / 10) + [Digit(n % 10)]
  }

  /** string_catnum. */
  function Decimal(n: int): string { if n < 0 then "-" + Digits(-n) else Digits(n) }

  /** string_catobj. */
  function ObjText(servers: seq<Server>, o: Objid): string {
    "#" + Decimal(o.id) + "@" + NameOf(servers, o.server)
  }

  /** string_backslash. The character after a carriage return is dropped with it. */
  function Escape(s: string): string
    decreases |s|
  {
    if s == [] then []
    else if s[0] == '\r' then "\\n" + Escape(if |s| > 1 then s[2..] else [])
    else Escape1(s[0]) + Escape(s[1..])
  }

  function Escape1(c: char): string {
    if c == '\n' then "\\n" else if c == '\t' then "\\t" else if c == '\\' then "\\\\" else if c == '"' then "\\\""
    else [c]
  }

  function Quoted(s: string): string { "\"" + Escape(s) + "\"" }

  function Enclosed(open: char, n: int, body: string, close: char): string {
    [open] + " " + Decimal(n) + " " + body + [close]
  }

  /** compose_var. */
  function Compose(servers: seq<Server>, v: Var): string
    decreases v, 0
  {
    match v
    case Str(s) => Quoted(s)
    case Num(n) => Decimal(n)
    case Obj(id, server) => ObjText(servers, Objid(id, server))
    case List(els) => ComposeList(servers, els)
    case Map(_, pairs) => Enclosed('[', |pairs|, ComposePairs(servers, pairs), ']')
    case Err(e) => ErrName(e)
    case Pc(_) => ""
  }

  function ComposeList(servers: seq<Server>, els: seq<Var>): string
    decreases els, 1
  {
    Enclosed('{', |els|, ComposeEls(servers, els), '}')
  }

  function ComposeEls(servers: seq<Server>, els: seq<Var>): string
    decreases els, 0
  {
    if els == [] then ""
    else ComposeEls(servers, els[..|els| - 1]) + Compose(servers, els[|els| - 1]) + " "
  }

  function ComposePairs(servers: seq<Server>, pairs: seq<Pair>): string
    decreases pairs, 0
  {
    if pairs == [] then ""
    else ComposePairs(servers, pairs[..|pairs| - 1]) + ComposePair(servers, pairs[|pairs| - 1])
  }

  function ComposePair(servers: seq<Server>, p: Pair): string
    decreases p, 0
  {
    Compose(servers, p.key) + " " + Compose(servers, p.val) + " "
  }

  function Three(a: string, b: string, c: string): string { a + " " + b + " " + c + " " }

  /** The packet of send_message. */
  function Packet(servers: seq<Server>, m: Message): string {
    Three(Decimal(m.msgid), Decimal(m.age), Decimal(m.ticks))
    + Three(ObjText(servers, m.player), ObjText(servers, m.from), ObjText(servers, m.to))
    + (Quoted(m.message) + " " + (ComposeList(servers, m.args) + "\n"))
  }

  // ---------------------------------------------------------------- reading

  /** What a reader gives: a value and what is left, or none. */
  type Got<T> = Option<(T, string)>

  function Skip(s: string): (r: string)
    ensures |r| <= |s|
  {
    if s != [] && IsSpace(s[0]) then Skip(s[1..]) else s
  }

  function ReadDigits(s: string, n: nat): (r: (nat, string))
    ensures |r.1| <= |s|
  {
    if s != [] && IsDigit(s[0]) then ReadDigits(s[1..], n * 10 + (s[0] - '0') as int) else (n, s)
  }

  /** parse_num. */
  function ReadNum(s: string): (r: Got<int>)
    ensures r.Some? ==> |r.value.1| < |s|
  {
    var t := Skip(s);
    var neg := t != [] && t[0] == '-';
    var u := if neg then t[1..] else t;
    if u == [] || !IsDigit(u[0]) then None
    else
      var (n, rest) := ReadDigits(u[1..], (u[0] - '0') as int);
      Some(((if neg then -(n as int) else n as int), rest))
  }

  function WordLength(s: string): (n: nat)
    ensures n <= |s|
  {
    if s != [] && IsWord(s[0]) then 1 + WordLength(s[1..]) else 0
  }

  /** parse_id. */
  function ReadId(s: string): (r: Got<string>)
    ensures r.Some? ==> |r.value.1| <= |s|
  {
    var t := Skip(s);
    if t != [] && !IsAlpha(t[0]) && t[0] != '_' then None
    else
      var n := WordLength(t);
      Some((t[..n], t[n..]))
  }

  /** parse_obj; without a server it is one of this server's, whose number is 0. */
  function ReadObj(servers: seq<Server>, s: string): (r: Got<Objid>)
    ensures r.Some? ==> |r.value.1| < |s|
  {
    var t := Skip(s);
    if t == [] || t[0] != '#' then None
    else
      match ReadNum(t[1..])
      case None => None
      case Some((id, rest)) =>
        var u := Skip(rest);
        if u == [] || u[0] != '@' then Some((Objid(id, 0), u))
        else
          match ReadId(u[1..])
          case None => None
          case Some((name, more)) =>
            var server := IdOf(servers, name);
            if server < 0 then None else Some((Objid(id, server), more))
  }

  /** The text up to the closing quote, with its escapes undone. */
  function ReadText(s: string): (r: Got<string>)
    ensures r.Some? ==> |r.value.1| < |s|
  {
    if s == [] || (|s| == 1 && s[0] == '\\') then None
    else if s[0] == '"' then Some(([], s[1..]))
    else if s[0] == '\\' then (match ReadText(s[2..]) case None => None case Some((t, u)) => Some((Unescape(s[1]) + t, u)))
    else (match ReadText(s[1..]) case None => None case Some((t, u)) => Some(([s[0]] + t, u)))
  }

  function Unescape(c: char): string { if c == 'n' then "\r\n" else if c == 't' then "\t" else [c] }

  /** parse_string. */
  function ReadString(s: string): (r: Got<string>)
    ensures r.Some? ==> |r.value.1| < |s|
  {
    var t := Skip(s);
    if t == [] || t[0] != '"' then None else ReadText(t[1..])
  }

  function UpToSpace(s: string): (n: nat)
    ensures n <= |s|
  {
    if s == [] || s[0] == ' ' then 0 else 1 + UpToSpace(s[1..])
  }

  /** parse_err. */
  function ReadErr(s: string): (r: Got<int>)
    ensures r.Some? ==> |r.value.1| < |s|
  {
    var t := Skip(s);
    if t == [] || t[0] != 'E' then None
    else
      var n := UpToSpace(t);
      Some((ErrId(t[..n]), t[n..]))
  }

  /** parse_var. */
  function ReadVar(servers: seq<Server>, s: string): (r: Got<Var>)
    ensures r.Some? ==> |r.value.1| < |s|
    decreases |s|, 1
  {
    var t := Skip(s);
    if t == [] then None
    else if t[0] == '"' then (match ReadString(t) case None => None case Some((x, u)) => Some((Str(x), u)))
    else if IsDigit(t[0]) || t[0] == '-' then (match ReadNum(t) case None => None case Some((n, u)) => Some((Num(n), u)))
    else if t[0] == '#' then
      (match ReadObj(servers, t) case None => None case Some((o, u)) => Some((Obj(o.id, o.server), u)))
    else if t[0] == '{' then (match ReadList(servers, t) case None => None case Some((els, u)) => Some((List(els), u)))
    else if t[0] == '[' then ReadMap(servers, t)
    else if t[0] == 'E' then (match ReadErr(t) case None => None case Some((e, u)) => Some((Var.Err(e), u)))
    else None
  }

  /** What ends a list or a map. */
  function ReadClose(s: string, c: char): (r: Option<string>)
    ensures r.Some? ==> |r.value| < |s|
  {
    var t := Skip(s);
    if t == [] || t[0] != c then None else Some(t[1..])
  }

  /** parse_list; a negative length is not modelled further. */
  function ReadList(servers: seq<Server>, s: string): (r: Got<seq<Var>>)
    ensures r.Some? ==> |r.value.1| < |s|
    decreases |s|, 0
  {
    var t := Skip(s);
    if t == [] || t[0] != '{' then None
    else
      match ReadNum(t[1..])
      case None => None
      case Some((n, u)) =>
        if n < 0 then None
        else
          match ReadEls(servers, u, n)
          case None => None
          case Some((els, x)) => match ReadClose(x, '}') case None => None case Some(y) => Some((els, y))
  }

  function ReadEls(servers: seq<Server>, s: string, n: nat): (r: Got<seq<Var>>)
    ensures r.Some? ==> |r.value.1| <= |s|
    decreases |s|, 2, n
  {
    if n == 0 then Some(([], s))
    else
      match ReadEls(servers, s, n - 1)
      case None => None
      case Some((els, t)) => match ReadVar(servers, t) case None => None case Some((v, u)) => Some((els + [v], u))
  }

  /** parse_map: each pair is put into a new table as it is read. */
  function ReadMap(servers: seq<Server>, s: string): (r: Got<Var>)
    ensures r.Some? ==> |r.value.1| < |s|
    decreases |s|, 0
  {
    var t := Skip(s);
    if t == [] || t[0] != '[' then None
    else
      match ReadNum(t[1..])
      case None => None
      case Some((n, u)) =>
        match ReadPairs(servers, u, if n < 0 then 0 else n)
        case None => None
        case Some((ps, x)) =>
          match ReadClose(x, ']')
          case None => None
          case Some(y) => Some((Map(TableSize(n), Rehash(TableSize(n), ps)), y))
  }

  function ReadPairs(servers: seq<Server>, s: string, n: nat): (r: Got<seq<Pair>>)
    ensures r.Some? ==> |r.value.1| <= |s|
    decreases |s|, 2, n
  {
    if n == 0 then Some(([], s))
    else
      match ReadPairs(servers, s, n - 1)
      case None => None
      case Some((ps, t)) =>
        match ReadVar(servers, t)
        case None => None
        case Some((k, u)) =>
          match ReadVar(servers, u) case None => None case Some((v, x)) => Some((ps + [Pair(k, v)], x))
  }

  /** parse_message. */
  function Parse(servers: seq<Server>, s: string): Option<Message> {
    match ReadNum(s) case None => None case Some((msgid, s1)) =>
    match ReadNum(s1) case None => None case Some((age, s2)) =>
    match ReadNum(s2) case None => None case Some((ticks, s3)) =>
    match ReadObj(servers, s3) case None => None case Some((player, s4)) =>
    match ReadObj(servers, s4) case None => None case Some((from, s5)) =>
    match ReadObj(servers, s5) case None => None case Some((to, s6)) =>
    match ReadString(s6) case None => None case Some((message, s7)) =>
    match ReadList(servers, s7) case None => None case Some((args, _)) =>
    Some(Message(msgid, age, ticks, player, from, to, message, args, to))
  }
}

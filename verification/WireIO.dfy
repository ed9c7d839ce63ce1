/** The composers append to a buffer, the parsers advance through a text; both loop as src/src/message.c,
    src/src/string.c and src/src/servers.c do. */
module WireIO {
  import opened Wrappers
  import opened Values
  import opened Wire
  import opened WireProof

  lemma Assoc(a: string, b: string, c: string)
    ensures a + b + c == a + (b + c)
  {
  }

  // ---------------------------------------------------------------- tables

  /** serv_id2name. */
  method FindName(servers: seq<Server>, id: int) returns (name: string)
    ensures name == NameOf(servers, id)
  {
    var i := 0;
    while i < |servers|
      invariant i <= |servers| && NameOf(servers, id) == NameOf(servers[i..], id)
    {
      assert servers[i..][0] == servers[i] && servers[i..][1..] == servers[i + 1..];
      if servers[i].id >= 0 && servers[i].id == id { return servers[i].name; }
      i := i + 1;
    }
    return "";
  }

  /** serv_name2id. */
  method FindId(servers: seq<Server>, name: string) returns (id: int)
    ensures id == IdOf(servers, name)
  {
    var i := 0;
    while i < |servers|
      invariant i <= |servers| && IdOf(servers, name) == IdOf(servers[i..], name)
    {
      assert servers[i..][0] == servers[i] && servers[i..][1..] == servers[i + 1..];
      if SameText(servers[i].name, name) { return servers[i].id; }
      i := i + 1;
    }
    return -1;
  }

  /** err_name2id. */
  method FindErr(name: string) returns (err: int)
    ensures err == ErrId(name)
  {
    var i := 0;
    while i < |ERRORS|
      invariant i <= |ERRORS| && ErrId(name) == ErrIdFrom(name, i)
    {
      if SameText(ERRORS[i], name) { return i; }
      i := i + 1;
    }
    return -1;
  }

  // ---------------------------------------------------------------- composing

  class Buffer {
    const servers: seq<Server>
    var str: string

    constructor (servers: seq<Server>)
      ensures this.servers == servers && str == ""
    {
      this.servers, str := servers, "";
    }

    method Cat(s: string)
      modifies this
      ensures str == old(str) + s
    {
      str := str + s;
    }

    /** string_catobj, with the server's name. */
    method CatObj(o: Objid)
      modifies this
      ensures str == old(str) + ObjText(servers, o)
    {
      var name := FindName(servers, o.server);
      Cat("#" + Decimal(o.id) + "@" + name);
    }

    /** string_backslash. */
    method Backslash(s: string)
      modifies this
      ensures str == old(str) + Escape(s)
    {
      var i := 0;
      ghost var was := str;
      assert s[0..] == s;
      while i < |s|
        invariant i <= |s| && was + Escape(s) == str + Escape(s[i..])
      {
        ghost var before, c := str, s[i];
        assert s[i..][0] == c && s[i..][1..] == s[i + 1..];
        if s[i] == '\r' {
          i := i + 1;
          if i < |s| { i := i + 1; }
          str := str + "\\n";
        } else {
          if s[i] == '\n' {
            str := str + "\\n";
          } else if s[i] == '\t' {
            str := str + "\\t";
          } else if s[i] == '\\' {
            str := str + "\\\\";
          } else if s[i] == '"' {
            str := str + "\\\"";
          } else {
            str := str + [s[i]];
          }
          i := i + 1;
        }
        Assoc(before, if c == '\r' then "\\n" else Escape1(c), Escape(s[i..]));
      }
      assert s[i..] == [];
      assert str + [] == str;
    }

    method CatQuoted(s: string)
      modifies this
      ensures str == old(str) + Quoted(s)
    {
      ghost var was := str;
      Cat("\"");
      Backslash(s);
      Cat("\"");
      assert was + "\"" + Escape(s) + "\"" == was + ("\"" + Escape(s) + "\"");
    }

    /** compose_var. */
    method Var1(v: Var)
      modifies this
      ensures str == old(str) + Compose(servers, v)
      decreases v, 0
    {
      match v {
        case List(els) => List1(els);
        case Map(_, pairs) => Map1(pairs);
        case Str(s) => CatQuoted(s);
        case Num(n) => Cat(Decimal(n));
        case Obj(id, server) => CatObj(Objid(id, server));
        case Err(e) => Cat(ErrName(e));
        case Pc(_) => Cat("");
      }
    }

    /** The mark, the length and the spaces around it. */
    method Head(open: char, n: int)
      modifies this
      ensures str == old(str) + ([open] + " " + Decimal(n) + " ")
    {
      ghost var was := str;
      Cat([open] + " ");
      Cat(Decimal(n));
      Cat(" ");
      assert was + ([open] + " ") + Decimal(n) + " " == was + ([open] + " " + Decimal(n) + " ");
    }

    static lemma HeadBody(was: string, head: string, body: string, close: string)
      ensures was + head + body + close == was + (head + body + close)
    {
    }

    /** compose_list. */
    method List1(els: seq<Var>)
      modifies this
      ensures str == old(str) + ComposeList(servers, els)
      decreases els, 1
    {
      ghost var was := str;
      Head('{', |els|);
      ghost var head := [('{')] + " " + Decimal(|els|) + " ";
      var i := 0;
      while i < |els|
        invariant i <= |els| && str == was + head + ComposeEls(servers, els[..i])
      {
        ghost var before := ComposeEls(servers, els[..i]);
        assert els[..i + 1][..i] == els[..i];
        Var1(els[i]);
        Cat(" ");
        Assoc(was + head, before, Compose(servers, els[i]));
        Assoc(was + head, before + Compose(servers, els[i]), " ");
        i := i + 1;
      }
      assert els[..i] == els;
      Cat("}");
      HeadBody(was, head, ComposeEls(servers, els), "}");
    }

    /** compose_map, along the chains. */
    method Map1(pairs: seq<Pair>)
      modifies this
      ensures str == old(str) + Enclosed('[', |pairs|, ComposePairs(servers, pairs), ']')
      decreases pairs, 1
    {
      ghost var was := str;
      Head('[', |pairs|);
      ghost var head := [('[')] + " " + Decimal(|pairs|) + " ";
      var i := 0;
      while i < |pairs|
        invariant i <= |pairs| && str == was + head + ComposePairs(servers, pairs[..i])
      {
        ghost var before := ComposePairs(servers, pairs[..i]);
        assert pairs[..i + 1][..i] == pairs[..i];
        Pair1(pairs[i]);
        Assoc(was + head, before, ComposePair(servers, pairs[i]));
        i := i + 1;
      }
      assert pairs[..i] == pairs;
      Cat("]");
      HeadBody(was, head, ComposePairs(servers, pairs), "]");
    }

    method Pair1(p: Pair)
      modifies this
      ensures str == old(str) + ComposePair(servers, p)
      decreases p
    {
      ghost var was := str;
      Var1(p.key);
      Cat(" ");
      Var1(p.val);
      Cat(" ");
      ghost var k, v := Compose(servers, p.key), Compose(servers, p.val);
      assert was + k + " " + v + " " == was + (k + " " + v + " ");
    }

    method Numbers(a: int, b: int, c: int)
      modifies this
      ensures str == old(str) + Three(Decimal(a), Decimal(b), Decimal(c))
    {
      ghost var was := str;
      Cat(Decimal(a));
      Cat(" ");
      Cat(Decimal(b));
      Cat(" ");
      Cat(Decimal(c));
      Cat(" ");
      ThreeAppended(was, Decimal(a), Decimal(b), Decimal(c));
    }

    method Objects(a: Objid, b: Objid, c: Objid)
      modifies this
      ensures str == old(str) + Three(ObjText(servers, a), ObjText(servers, b), ObjText(servers, c))
    {
      ghost var was := str;
      CatObj(a);
      Cat(" ");
      CatObj(b);
      Cat(" ");
      CatObj(c);
      Cat(" ");
      ThreeAppended(was, ObjText(servers, a), ObjText(servers, b), ObjText(servers, c));
    }

    static lemma ThreeAppended(was: string, a: string, b: string, c: string)
      ensures was + a + " " + b + " " + c + " " == was + Three(a, b, c)
    {
      Assoc(was, a, " ");
      Assoc(was, a + " ", b);
      Assoc(was, a + " " + b, " ");
      Assoc(was, a + " " + b + " ", c);
      Assoc(was, a + " " + b + " " + c, " ");
    }

    /** send_message to another server: the text of the packet. */
    method Message1(m: Message)
      modifies this
      ensures str == old(str) + Packet(servers, m)
    {
      ghost var was := str;
      Numbers(m.msgid, m.age, m.ticks);
      Objects(m.player, m.from, m.to);
      ghost var a, b := Three(Decimal(m.msgid), Decimal(m.age), Decimal(m.ticks)),
                        Three(ObjText(servers, m.player), ObjText(servers, m.from), ObjText(servers, m.to));
      CatQuoted(m.message);
      Cat(" ");
      List1(m.args);
      Cat("\n");
      BodyAppended(was, a, b, Quoted(m.message), ComposeList(servers, m.args));
    }

    static lemma BodyAppended(was: string, a: string, b: string, q: string, l: string)
      ensures was + a + b + q + " " + l + "\n" == was + (a + b + (q + " " + (l + "\n")))
    {
      Assoc(was, a, b);
      Assoc(was + (a + b), q, " ");
      Assoc(was + (a + b) + (q + " "), l, "\n");
      Assoc(was + (a + b), q + " ", l + "\n");
      Assoc(was, a + b, q + " " + (l + "\n"));
    }
  }

  // ---------------------------------------------------------------- parsing

  /** How many characters stand before the closing quote, an escape counting as one. */
  function Units(s: string): nat {
    if s == [] || s[0] == '"' then 0 else if s[0] == '\\' then 1 + (if |s| > 1 then Units(s[2..]) else 0) else 1 + Units(s[1..])
  }

  /** A key and a value. */
  function ReadPair(servers: seq<Server>, s: string): Got<Pair> {
    match ReadVar(servers, s)
    case None => None
    case Some((k, t)) => match ReadVar(servers, t) case None => None case Some((v, u)) => Some((Pair(k, v), u))
  }

  lemma {:induction false} ElsFail(servers: seq<Server>, s: string, k: nat, n: nat)
    requires k <= n && ReadEls(servers, s, k).None?
    ensures ReadEls(servers, s, n).None?
    decreases n
  {
    if k < n { ElsFail(servers, s, k, n - 1); }
  }

  lemma {:induction false} PairsFail(servers: seq<Server>, s: string, k: nat, n: nat)
    requires k <= n && ReadPairs(servers, s, k).None?
    ensures ReadPairs(servers, s, n).None?
    decreases n
  {
    if k < n { PairsFail(servers, s, k, n - 1); }
  }

  class Reader {
    const servers: seq<Server>
    const text: string
    var pos: nat

    constructor (servers: seq<Server>, text: string)
      ensures this.servers == servers && this.text == text && Valid() && Rest() == text
    {
      this.servers, this.text, pos := servers, text, 0;
    }

    ghost predicate Valid()
      reads this
    {
      pos <= |text|
    }

    ghost function Rest(): string
      requires Valid()
      reads this
    {
      text[pos..]
    }

    /** The character at the pointer, 0 at the end of the text. */
    function Peek(): (c: char)
      reads this
    {
      if pos < |text| then text[pos] else 0 as char
    }

    method Advance()
      requires Valid() && pos < |text|
      modifies this
      ensures Valid() && Rest() == old(Rest())[1..] && pos == old(pos) + 1
    {
      pos := pos + 1;
    }

    method SkipSpaces()
      requires Valid()
      modifies this
      ensures Valid() && Rest() == Skip(old(Rest())) && old(pos) <= pos && Skip(Rest()) == Rest()
    {
      while pos < |text| && IsSpace(text[pos])
        invariant Valid() && Skip(Rest()) == Skip(old(Rest())) && old(pos) <= pos
      {
        Advance();
      }
    }

    /** parse_num. */
    method ParseNum() returns (ok: bool, num: int)
      requires Valid()
      modifies this
      ensures Valid() && old(pos) <= pos && ok == ReadNum(old(Rest())).Some?
      ensures ok ==> ReadNum(old(Rest())) == Some((num, Rest())) && old(pos) < pos
    {
      num := 0;
      SkipSpaces();
      var neg := pos < |text| && text[pos] == '-';
      if neg { Advance(); }
      if pos == |text| || !IsDigit(text[pos]) { return false, 0; }
      var d := (text[pos] - '0') as int;
      Advance();
      var n := TakeDigits(d);
      return true, if neg then -(n as int) else n;
    }

    /** The digits after the first one. */
    method TakeDigits(first: nat) returns (n: nat)
      requires Valid()
      modifies this
      ensures Valid() && old(pos) <= pos && ReadDigits(old(Rest()), first) == (n, Rest())
    {
      n := first;
      while pos < |text| && IsDigit(text[pos])
        invariant Valid() && old(pos) <= pos && ReadDigits(old(Rest()), first) == ReadDigits(Rest(), n)
      {
        n := n * 10 + (text[pos] - '0') as int;
        Advance();
      }
    }

    /** parse_id. */
    method ParseId() returns (ok: bool, id: string)
      requires Valid()
      modifies this
      ensures Valid() && old(pos) <= pos && ok == ReadId(old(Rest())).Some?
      ensures ok ==> ReadId(old(Rest())) == Some((id, Rest()))
    {
      SkipSpaces();
      if pos < |text| && !IsAlpha(text[pos]) && text[pos] != '_' { return false, ""; }
      var s := pos;
      while pos < |text| && IsWord(text[pos])
        invariant Valid() && s <= pos && WordLength(text[s..]) == pos - s + WordLength(Rest())
      {
        Advance();
      }
      assert text[s..][..pos - s] == text[s..pos] && text[s..][pos - s..] == Rest();
      return true, text[s..pos];
    }

    /** parse_obj. */
    method ParseObj() returns (ok: bool, o: Objid)
      requires Valid()
      modifies this
      ensures Valid() && old(pos) <= pos && ok == ReadObj(servers, old(Rest())).Some?
      ensures ok ==> ReadObj(servers, old(Rest())) == Some((o, Rest())) && old(pos) < pos
    {
      o := Objid(0, 0);
      SkipSpaces();
      if Peek() != '#' { return false, o; }
      Advance();
      var ok1, id := ParseNum();
      if !ok1 { return false, o; }
      SkipSpaces();
      if Peek() != '@' { return true, Objid(id, 0); }
      Advance();
      var ok2, name := ParseId();
      if !ok2 { return false, o; }
      var server := FindId(servers, name);
      return server >= 0, Objid(id, server);
    }

    /** parse_string: once to the closing quote, counting, and once more for the characters. */
    method ParseString() returns (ok: bool, r: string)
      requires Valid()
      modifies this
      ensures Valid() && old(pos) <= pos && ok == ReadString(old(Rest())).Some?
      ensures ok ==> ReadString(old(Rest())) == Some((r, Rest())) && old(pos) < pos
    {
      SkipSpaces();
      if Peek() != '"' { return false, ""; }
      Advance();
      var n;
      ok, n := CountText();
      if !ok { return false, ""; }
      r := TakeText(n);
    }

    /** The first pass; the pointer stays. */
    method CountText() returns (ok: bool, n: nat)
      requires Valid()
      ensures ok == ReadText(Rest()).Some? && (ok ==> n == Units(Rest()))
    {
      var s := pos;
      n := 0;
      while s < |text| && text[s] != '"'
        invariant pos <= s <= |text| && ReadText(Rest()).Some? == ReadText(text[s..]).Some?
        invariant ReadText(Rest()).Some? ==> Units(Rest()) == n + Units(text[s..])
      {
        ghost var u := text[s..];
        if text[s] == '\\' {
          s := s + 1;
          if s == |text| { return false, n; }
          assert u[2..] == text[s + 1..];
        } else {
          assert u[1..] == text[s + 1..];
        }
        s := s + 1;
        n := n + 1;
      }
      return s < |text|, n;
    }

    /** The second pass, of n characters or escapes. */
    method TakeText(n: nat) returns (r: string)
      requires Valid() && ReadText(Rest()).Some? && n == Units(Rest())
      modifies this
      ensures Valid() && old(pos) < pos && ReadText(old(Rest())) == Some((r, Rest()))
    {
      r := "";
      var k := n;
      assert r + ReadText(Rest()).value.0 == ReadText(Rest()).value.0;
      while k > 0
        invariant Valid() && old(pos) <= pos && ReadText(Rest()).Some? && k == Units(Rest())
        invariant var (t, u) := ReadText(Rest()).value; ReadText(old(Rest())) == Some((r + t, u))
      {
        ghost var was, t := r, ReadText(Rest()).value.0;
        if text[pos] == '\\' {
          Advance();
          var piece := Unescape(text[pos]);
          r := r + piece;
          Advance();
          assert t == piece + ReadText(Rest()).value.0;
          Assoc(was, piece, ReadText(Rest()).value.0);
        } else {
          var piece := [text[pos]];
          r := r + piece;
          Advance();
          assert t == piece + ReadText(Rest()).value.0;
          Assoc(was, piece, ReadText(Rest()).value.0);
        }
        k := k - 1;
      }
      assert r + [] == r;
      Advance();
    }

    /** parse_err: the name goes on to the next space. */
    method ParseErr() returns (ok: bool, err: int)
      requires Valid()
      modifies this
      ensures Valid() && old(pos) <= pos && ok == ReadErr(old(Rest())).Some?
      ensures ok ==> ReadErr(old(Rest())) == Some((err, Rest())) && old(pos) < pos
    {
      SkipSpaces();
      if Peek() != 'E' { return false, -1; }
      var s := pos;
      while pos < |text| && text[pos] != ' '
        invariant Valid() && s <= pos && UpToSpace(text[s..]) == pos - s + UpToSpace(Rest())
      {
        Advance();
      }
      assert text[s..][..pos - s] == text[s..pos] && text[s..][pos - s..] == Rest();
      ok := true;
      err := FindErr(text[s..pos]);
    }

    /** parse_var. */
    method ParseVar() returns (ok: bool, v: Var)
      requires Valid()
      modifies this
      ensures Valid() && old(pos) <= pos && ok == ReadVar(servers, old(Rest())).Some?
      ensures ok ==> ReadVar(servers, old(Rest())) == Some((v, Rest())) && old(pos) < pos
      decreases |text| - pos, 1
    {
      v := Num(0);
      SkipSpaces();
      ghost var t := Rest();
      if Peek() == '{' {
        var els;
        ok, els := ParseList();
        v := List(els);
      } else if Peek() == '[' {
        ok, v := ParseMap();
      } else {
        ok, v := ParsePlain();
      }
    }

    /** The values that hold no others. */
    method ParsePlain() returns (ok: bool, v: Var)
      requires Valid() && Skip(Rest()) == Rest() && Peek() != '{' && Peek() != '['
      modifies this
      ensures Valid() && old(pos) <= pos && ok == ReadVar(servers, old(Rest())).Some?
      ensures ok ==> ReadVar(servers, old(Rest())) == Some((v, Rest())) && old(pos) < pos
    {
      v := Num(0);
      if Peek() == '"' {
        var s;
        ok, s := ParseString();
        v := Str(s);
      } else if IsDigit(Peek()) || Peek() == '-' {
        var n;
        ok, n := ParseNum();
        v := Num(n);
      } else if Peek() == '#' {
        var o;
        ok, o := ParseObj();
        v := Obj(o.id, o.server);
      } else if Peek() == 'E' {
        var e;
        ok, e := ParseErr();
        v := Var.Err(e);
      } else {
        ok := false;
      }
    }

    method ParseClose(c: char) returns (ok: bool)
      requires Valid() && c != 0 as char
      modifies this
      ensures Valid() && old(pos) <= pos && ok == ReadClose(old(Rest()), c).Some?
      ensures ok ==> ReadClose(old(Rest()), c) == Some(Rest()) && old(pos) < pos
    {
      SkipSpaces();
      if Peek() != c { return false; }
      Advance();
      return true;
    }

    /** parse_list. */
    method ParseList() returns (ok: bool, els: seq<Var>)
      requires Valid()
      modifies this
      ensures Valid() && old(pos) <= pos && ok == ReadList(servers, old(Rest())).Some?
      ensures ok ==> ReadList(servers, old(Rest())) == Some((els, Rest())) && old(pos) < pos
      decreases |text| - pos, 0
    {
      els := [];
      SkipSpaces();
      if Peek() != '{' { return false, els; }
      Advance();
      var ok1, len := ParseNum();
      if !ok1 || len < 0 { return false, els; }
      ok, els := ParseEls(len);
      if ok { ok := ParseClose('}'); }
    }

    method ParseEls(len: nat) returns (ok: bool, els: seq<Var>)
      requires Valid()
      modifies this
      ensures Valid() && old(pos) <= pos && ok == ReadEls(servers, old(Rest()), len).Some?
      ensures ok ==> ReadEls(servers, old(Rest()), len) == Some((els, Rest()))
      decreases |text| - pos, 2
    {
      ghost var s := Rest();
      els := [];
      var i := 0;
      while i < len
        invariant i <= len && Valid() && old(pos) <= pos && ReadEls(servers, s, i) == Some((els, Rest()))
      {
        var ok1, v := ParseVar();
        i := i + 1;
        if !ok1 {
          ElsFail(servers, s, i, len);
          return false, els;
        }
        els := els + [v];
      }
      ok := true;
    }

    /** parse_map. */
    method ParseMap() returns (ok: bool, v: Var)
      requires Valid()
      modifies this
      ensures Valid() && old(pos) <= pos && ok == ReadMap(servers, old(Rest())).Some?
      ensures ok ==> ReadMap(servers, old(Rest())) == Some((v, Rest())) && old(pos) < pos
      decreases |text| - pos, 0
    {
      v := Num(0);
      SkipSpaces();
      if Peek() != '[' { return false, v; }
      Advance();
      var ok1, num := ParseNum();
      if !ok1 { return false, v; }
      var table;
      ghost var pairs;
      ok, table, pairs := ParsePairs(if num < 0 then 0 else num, TableSize(num));
      if ok { ok := ParseClose(']'); }
      v := Map(TableSize(num), table);
    }

    /** The pairs, each put into the table as it comes. */
    method ParsePairs(num: nat, size: nat) returns (ok: bool, table: seq<Pair>, ghost pairs: seq<Pair>)
      requires Valid() && size > 0
      modifies this
      ensures Valid() && old(pos) <= pos && ok == ReadPairs(servers, old(Rest()), num).Some?
      ensures ok ==> ReadPairs(servers, old(Rest()), num) == Some((pairs, Rest())) && table == Rehash(size, pairs)
      decreases |text| - pos, 3
    {
      ghost var s := Rest();
      table, pairs := [], [];
      var i := 0;
      while i < num
        invariant i <= num && Valid() && old(pos) <= pos && ReadPairs(servers, s, i) == Some((pairs, Rest()))
        invariant table == Rehash(size, pairs)
      {
        ghost var x := Rest();
        var ok1, p := ParsePair();
        PairsStep(servers, s, i, pairs, x);
        i := i + 1;
        if !ok1 {
          PairsFail(servers, s, i, num);
          return false, table, pairs;
        }
        RehashStep(size, pairs, p);
        table := MapAdd(size, table, p.key, p.val);
        pairs := pairs + [p];
      }
      ok := true;
    }

    static lemma RehashStep(size: nat, pairs: seq<Pair>, p: Pair)
      requires size > 0
      ensures Rehash(size, pairs + [p]) == MapAdd(size, Rehash(size, pairs), p.key, p.val)
    {
      assert (pairs + [p])[..|pairs|] == pairs;
    }

    static lemma PairsStep(servers: seq<Server>, s: string, i: nat, pairs: seq<Pair>, x: string)
      requires ReadPairs(servers, s, i) == Some((pairs, x))
      ensures ReadPairs(servers, s, i + 1) ==
              match ReadPair(servers, x) case None => None case Some((p, y)) => Some((pairs + [p], y))
    {
    }

    method ParsePair() returns (ok: bool, p: Pair)
      requires Valid()
      modifies this
      ensures Valid() && old(pos) <= pos && ok == ReadPair(servers, old(Rest())).Some?
      ensures ok ==> ReadPair(servers, old(Rest())) == Some((p, Rest()))
      decreases |text| - pos, 2
    {
      p := Pair(Num(0), Num(0));
      var ok1, k := ParseVar();
      if !ok1 { return false, p; }
      var ok2, v := ParseVar();
      if !ok2 { return false, p; }
      return true, Pair(k, v);
    }

    /** parse_message. */
    method ParseMessage() returns (m: Option<Message>)
      requires Valid()
      modifies this
      ensures Valid() && m == Parse(servers, old(Rest()))
    {
      var ok, msgid := ParseNum();
      if !ok { return None; }
      var age;
      ok, age := ParseNum();
      if !ok { return None; }
      var ticks;
      ok, ticks := ParseNum();
      if !ok { return None; }
      var player;
      ok, player := ParseObj();
      if !ok { return None; }
      var from;
      ok, from := ParseObj();
      if !ok { return None; }
      var to;
      ok, to := ParseObj();
      if !ok { return None; }
      var message;
      ok, message := ParseString();
      if !ok { return None; }
      var args;
      ok, args := ParseList();
      if !ok { return None; }
      return Some(Message(msgid, age, ticks, player, from, to, message, args, to));
    }
  }

  /** A message sent by one server and received by another, each with its own numbers for the servers: what arrives. */
  method Carry(here: seq<Server>, there: seq<Server>, m: Message) returns (r: Option<Message>)
    ensures r == Parse(there, Packet(here, m))
    ensures Named(here) && SendableMessage(here, there, m) ==> r == Some(Received(here, there, m))
  {
    var b := new Buffer(here);
    b.Message1(m);
    var reader := new Reader(there, b.str);
    assert [] + Packet(here, m) == Packet(here, m);
    r := reader.ParseMessage();
    if Named(here) && SendableMessage(here, there, m) { PacketBack(here, there, m); }
  }
}

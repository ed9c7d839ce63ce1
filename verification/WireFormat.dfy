/** The form of packets (src/src/message.c:326-343, 585-651, src/src/string.c:131-245), by the digits of numbers and one
    packet with a value of every kind. */
module WireFormat {
  import opened Wrappers
  import opened Values
  import opened Wire
  import opened WireProof
  import Vm

  /** The number that decimal digits stand for. */
  function Decimals(s: string): int {
    if s == [] then 0 else 10 * Decimals(s[..|s| - 1]) + (s[|s| - 1] as int - '0' as int)
  }

  /** Numbers are written in decimal, without leading zeros. */
  lemma {:induction false} DigitsAre(n: nat)
    ensures Decimals(Digits(n)) == n && (n > 0 ==> Digits(n)[0] != '0')
    ensures forall c :: c in Digits(n) ==> '0' <= c <= '9'
  {
    if n < 10 {
      assert [Digit(n)][..0] == [];
    } else {
      DigitsAre(n / 10);
      assert Digits(n)[..|Digits(n)| - 1] == Digits(n / 10);
    }
  }

  const SERVERS := [Server("Here", 0), Server("There", 3)]

  /** A quote, a backslash, a line end and a tab. */
  const SIGNS := "\"\\\r\n\t"

  const SAMPLE := Message(7, 0, 20, Objid(5, 0), Objid(-1, 3), Objid(12, 3), "look",
                          [Str(SIGNS), Num(-40), Obj(2, 3), List([]), Map(37, [Pair(Num(1), Str(""))]), Var.Err(13)], Objid(12, 3))

  lemma NumbersOf()
    ensures Decimal(7) == "7" && Decimal(0) == "0" && Decimal(20) == "20" && Decimal(5) == "5" && Decimal(-1) == "-1"
    ensures Decimal(12) == "12" && Decimal(6) == "6" && Decimal(-40) == "-40" && Decimal(2) == "2" && Decimal(1) == "1"
  {
    assert Digits(20) == Digits(2) + [Digit(0)] && Digits(12) == Digits(1) + [Digit(2)] && Digits(40) == Digits(4) + [Digit(0)];
  }

  lemma NamesOf()
    ensures NameOf(SERVERS, 0) == "Here" && NameOf(SERVERS, 3) == "There"
  {
    assert SERVERS[1..] == [Server("There", 3)];
  }

  lemma SignsEscaped()
    ensures Escape(SIGNS) == "\\\"\\\\\\n\\t"
  {
    assert Escape("\t") == "\\t" && "\r\n\t"[2..] == "\t" && Escape("\r\n\t") == "\\n\\t";
    assert SIGNS[1..] == "\\\r\n\t" && SIGNS[1..][1..] == "\r\n\t";
  }

  lemma NameEscaped()
    ensures Escape("look") == "look" && Escape("") == ""
  {
    assert Escape("k") == "k" && Escape("ok") == "ok" && Escape("ook") == "ook";
  }

  lemma ElsNext(els: seq<Var>, k: nat)
    requires k < |els|
    ensures ComposeEls(SERVERS, els[..k + 1]) == ComposeEls(SERVERS, els[..k]) + (Compose(SERVERS, els[k]) + " ")
  {
    assert els[..k + 1][..k] == els[..k];
  }

  lemma PlainOf()
    ensures Compose(SERVERS, Num(-40)) == "-40" && Compose(SERVERS, Obj(2, 3)) == "#2@There"
    ensures Compose(SERVERS, Var.Err(13)) == "E_OBJNF"
  {
    NumbersOf();
    NamesOf();
  }

  lemma TextOf()
    ensures Compose(SERVERS, Str(SIGNS)) == "\"\\\"\\\\\\n\\t\""
  {
    SignsEscaped();
  }

  lemma EmptyOf()
    ensures Compose(SERVERS, List([])) == "{ 0 }"
  {
    NumbersOf();
    assert ComposeEls(SERVERS, []) == "";
  }

  lemma MapOf()
    ensures Compose(SERVERS, Map(37, [Pair(Num(1), Str(""))])) == "[ 1 1 \"\" ]"
  {
    NumbersOf();
    var ps := [Pair(Num(1), Str(""))];
    assert ps[..0] == [];
    assert ComposePairs(SERVERS, ps) == "" + ("1" + " " + "\"\"" + " ");
  }

  /** The arguments of the sample, each with the space after it. */
  const TEXTS := ["\"\\\"\\\\\\n\\t\" ", "-40 ", "#2@There ", "{ 0 } ", "[ 1 1 \"\" ] ", "E_OBJNF "]

  lemma TextsOf(k: nat)
    requires k < 6
    ensures Compose(SERVERS, SAMPLE.args[k]) + " " == TEXTS[k]
  {
    if k == 0 { TextOf(); } else if k == 3 { EmptyOf(); } else if k == 4 { MapOf(); } else { PlainOf(); }
  }

  lemma ListOf()
    ensures ComposeEls(SERVERS, SAMPLE.args) == TEXTS[0] + TEXTS[1] + TEXTS[2] + TEXTS[3] + TEXTS[4] + TEXTS[5]
  {
    var els := SAMPLE.args;
    assert ComposeEls(SERVERS, els[..0]) == "";
    hide ComposeEls, Compose, TEXTS;
    ElsText(0, "");
    assert "" + TEXTS[0] == TEXTS[0];
    ElsText(1, TEXTS[0]);
    ElsText(2, TEXTS[0] + TEXTS[1]);
    ElsText(3, TEXTS[0] + TEXTS[1] + TEXTS[2]);
    ElsText(4, TEXTS[0] + TEXTS[1] + TEXTS[2] + TEXTS[3]);
    ElsText(5, TEXTS[0] + TEXTS[1] + TEXTS[2] + TEXTS[3] + TEXTS[4]);
    assert els[..6] == els;
  }

  lemma ElsText(k: nat, a: string)
    requires k < 6 && ComposeEls(SERVERS, SAMPLE.args[..k]) == a
    ensures |TEXTS| == 6 && ComposeEls(SERVERS, SAMPLE.args[..k + 1]) == a + TEXTS[k]
  {
    ElsNext(SAMPLE.args, k);
    TextsOf(k);
  }

  lemma ObjectsOf()
    ensures ObjText(SERVERS, Objid(5, 0)) == "#5@Here" && ObjText(SERVERS, Objid(-1, 3)) == "#-1@There"
    ensures ObjText(SERVERS, Objid(12, 3)) == "#12@There"
  {
    NumbersOf();
    NamesOf();
  }

  /** A packet as it goes over the wire. */
  lemma SamplePacket()
    ensures Packet(SERVERS, SAMPLE) ==
            "7 0 20 " + "#5@Here #-1@There #12@There "
            + ("\"look\" { 6 " + (TEXTS[0] + TEXTS[1] + TEXTS[2] + TEXTS[3] + TEXTS[4] + TEXTS[5]) + "}\n")
  {
    NumbersOf();
    ObjectsOf();
    NameEscaped();
    ListOf();
    hide ComposeEls, Compose, Decimal, ObjText, Escape, TEXTS;
    assert Three("7", "0", "20") == "7 0 20 ";
    assert Three("#5@Here", "#-1@There", "#12@There") == "#5@Here #-1@There #12@There ";
    assert Quoted("look") == "\"look\"";
    TailOf(ComposeEls(SERVERS, SAMPLE.args));
    assert ComposeList(SERVERS, SAMPLE.args) == Enclosed('{', 6, ComposeEls(SERVERS, SAMPLE.args), '}');
  }

  lemma TailOf(body: string)
    requires Decimal(6) == "6"
    ensures "\"look\"" + " " + (Enclosed('{', 6, body, '}') + "\n") == "\"look\" { 6 " + body + "}\n"
  {
  }

  /** The errors of the machine go by their names. */
  lemma ErrorNames()
    ensures ErrName(Vm.E_TYPE) == "E_TYPE" && ErrName(Vm.E_DIV) == "E_DIV" && ErrName(Vm.E_ARGTYPE) == "E_ARGTYPE"
    ensures ErrName(Vm.E_STACKUND) == "E_STACKUND" && ErrName(Vm.E_STACKOVR) == "E_STACKOVR"
    ensures ErrName(Vm.E_INTERNAL) == "E_INTERNAL" && ErrName(Vm.E_TICKS) == "E_TICKS"
  {
  }

  function WithoutCr(s: string): string {
    if s == [] then [] else (if s[0] == '\r' then [] else [s[0]]) + WithoutCr(s[1..])
  }

  /** Text without carriage returns gains one before every line feed, and nothing else changes. */
  lemma {:induction false} FeedsReturned(s: string)
    requires '\r' !in s
    ensures Lined(Crlf(s)) && WithoutCr(Crlf(s)) == s
    decreases |s|
  {
    if s != [] {
      FeedsReturned(s[1..]);
      if s[0] == '\n' {
        assert Crlf(s)[2..] == Crlf(s[1..]) && Crlf(s)[1..] == ['\n'] + Crlf(s[1..]);
        assert Crlf(s)[1..][1..] == Crlf(s[1..]);
      } else {
        assert Crlf(s)[1..] == Crlf(s[1..]);
      }
    }
  }

  // ---------------------------------------------------------------- what is refused

  /** An object without a server is one of the reader's own. */
  lemma OwnObject(servers: seq<Server>, n: int, t: string)
    requires t == [] || !(IsDigit(t[0]) || IsSpace(t[0]) || t[0] == '@')
    ensures ReadObj(servers, "#" + (Decimal(n) + t)) == Some((Objid(n, 0), t))
  {
    NumBack(n, t);
    NoSkip("#" + (Decimal(n) + t));
    if t != [] { NoSkip(t); }
    assert ("#" + (Decimal(n) + t))[1..] == Decimal(n) + t;
  }

  /** One of a server that is not in the table is refused. */
  lemma UnknownServer(servers: seq<Server>, n: int, name: string, t: string)
    requires Ident(name) && NoWord(t) && IdOf(servers, name) < 0
    ensures ReadObj(servers, "#" + (Decimal(n) + ("@" + (name + t)))) == None
  {
    var at := "@" + (name + t);
    NumBack(n, at);
    IdBack(name, t);
    NoSkip(at);
    NoSkip("#" + (Decimal(n) + at));
    assert ("#" + (Decimal(n) + at))[1..] == Decimal(n) + at && at[1..] == name + t;
  }

  /** So is text without a closing quote. */
  lemma {:induction false} Unclosed(s: string)
    requires '"' !in s
    ensures ReadText(s) == None
    decreases |s|
  {
    if |s| > 1 {
      Unclosed(s[1..]);
      if s[0] == '\\' { Unclosed(s[2..]); }
    }
  }

  lemma {:induction false} TooFew(servers: seq<Server>, s: string, k: nat, n: nat)
    requires ReadEls(servers, s, k) == None && k <= n
    ensures ReadEls(servers, s, n) == None
    decreases n
  {
    if k < n { TooFew(servers, s, k, n - 1); }
  }

  lemma {:induction false} FirstEls(here: seq<Server>, els: seq<Var>, n: nat)
    requires n <= |els|
    ensures ComposeEls(here, els) == ComposeEls(here, els[..n]) + ComposeEls(here, els[n..])
    decreases |els|
  {
    hide Compose;
    if n == |els| {
      assert els[..n] == els && els[n..] == [];
    } else {
      var m := |els| - 1;
      FirstEls(here, els[..m], n);
      assert els[..m][..n] == els[..n] && els[..m][n..] == els[n..][..m - n] && els[n..][m - n] == els[m];
      Appended(ComposeEls(here, els[..n]), ComposeEls(here, els[n..][..m - n]), Compose(here, els[m]), " ");
    }
  }

  lemma Appended(a: string, b: string, c: string, d: string)
    ensures a + b + c + d == a + (b + c + d)
  {
  }

  lemma {:induction false} StartOfEls(here: seq<Server>, there: seq<Server>, els: seq<Var>)
    requires els != [] && Sendable(here, there, els[0])
    ensures ComposeEls(here, els) != [] && ComposeEls(here, els)[0] != '}' && !IsSpace(ComposeEls(here, els)[0])
    decreases |els|
  {
    if |els| > 1 { StartOfEls(here, there, els[..|els| - 1]); } else { StartOfVar(here, there, els[0]); }
  }

  lemma StartOfVar(here: seq<Server>, there: seq<Server>, v: Var)
    requires Sendable(here, there, v)
    ensures Compose(here, v) != [] && Compose(here, v)[0] != '}' && !IsSpace(Compose(here, v)[0])
  {
    match v {
      case Num(n) => NumBack(n, []); assert Decimal(n) + [] == Decimal(n);
      case Err(e) => ErrNames(e);
      case _ =>
    }
  }

  lemma {:induction false} ElsPart(here: seq<Server>, there: seq<Server>, els: seq<Var>, n: nat)
    requires n <= |els| && SendableEls(here, there, els) && GoodList(els)
    ensures SendableEls(here, there, els[..n]) && GoodList(els[..n]) && (n < |els| ==> Sendable(here, there, els[n]))
    decreases |els|
  {
    if n < |els| {
      var m := |els| - 1;
      ElsPart(here, there, els[..m], n);
      assert els[..m][..n] == els[..n] && (n < m ==> els[..m][n] == els[n]);
    } else {
      assert els[..n] == els;
    }
  }

  /** A list is refused whose length is not the number of its elements. */
  lemma WrongLength(here: seq<Server>, there: seq<Server>, els: seq<Var>, n: int, t: string)
    requires Named(here) && SendableEls(here, there, els) && GoodList(els) && n != |els|
    ensures ReadList(there, Enclosed('{', n, ComposeEls(here, els), '}') + t) == None
  {
    HeadBack('{', n, ComposeEls(here, els), '}', t);
    if n > |els| { LongLength(here, there, els, n, t); } else if n >= 0 { ShortLength(here, there, els, n, t); }
  }

  lemma LongLength(here: seq<Server>, there: seq<Server>, els: seq<Var>, n: int, t: string)
    requires Named(here) && SendableEls(here, there, els) && GoodList(els) && n > |els|
    ensures ReadEls(there, " " + (ComposeEls(here, els) + ("}" + t)), n) == None
  {
    hide Compose, ComposeEls, NormList, MovedEls;
    var s := " " + (ComposeEls(here, els) + ("}" + t));
    ElsBack(here, there, els, "}" + t);
    NoSkip("}" + t);
    assert ReadVar(there, " " + ("}" + t)) == None;
    TooFew(there, s, |els| + 1, n);
  }

  lemma ShortLength(here: seq<Server>, there: seq<Server>, els: seq<Var>, n: nat, t: string)
    requires Named(here) && SendableEls(here, there, els) && GoodList(els) && n < |els|
    ensures var r := ReadEls(there, " " + (ComposeEls(here, els) + ("}" + t)), n); r.Some? && ReadClose(r.value.1, '}') == None
  {
    var more := ComposeEls(here, els[n..]) + ("}" + t);
    ElsPart(here, there, els, n);
    FirstEls(here, els, n);
    assert ComposeEls(here, els) + ("}" + t) == ComposeEls(here, els[..n]) + more;
    ElsBack(here, there, els[..n], more);
    StartOfEls(here, there, els[n..]);
    NoSkip(more);
  }
}

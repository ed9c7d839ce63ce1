/** Expressions as text (src/src/decode.c:141-178, 269-272, 583-804), token by token, and the grammar that reads
    them (src/src/cool.y:52-62, 300-310, 364-422). */
module Brackets {
  import opened Wrappers
  import opened Vm
  import opened VmLang

  /** Tokens. Punct holds the opcode of an operator; the minus sign is SUB, whether it has one operand or two. */
  datatype Token =
    | NumT(n: nat)
    | StrT(sym: int)
    | ObjT(id: int, server: int)
    | ErrT(err: int)
    | NameT(k: nat)
    | Punct(op: int)
    | Open
    | Close
    | LBrace
    | RBrace
    | Comma
    | Splice

  // ---------------------------------------------------------------- printing

  /** prec_table. */
  function PrecOf(op: int): nat {
    if op == OR then 3 else if op == AND then 4 else if op == IN then 5 else if op == EQ || op == NE then 6
    else if op == LT || op == LE || op == GT || op == GE then 7 else if op == ADD || op == SUB then 8
    else if op == MUL || op == DIV || op == MOD then 9 else 0
  }

  const UNARY := 10

  function Prec(e: Expr): nat {
    match e
    case Bin(op, _, _) => PrecOf(Word(op))
    case Short(any, _, _) => PrecOf(Branch(any))
    case Not(_) => UNARY
    case Neg(_) => UNARY
    case _ => 0
  }

  predicate Bracketed(e: Expr, prec: nat, full: bool) { Prec(e) > 0 && (Prec(e) < prec || full) }

  /** decompile_expr. */
  function Print(e: Expr, prec: nat, full: bool): seq<Token>
    decreases e, 1
  {
    if Bracketed(e, prec, full) then [Open] + Bare(e, full) + [Close] else Bare(e, full)
  }

  function Bare(e: Expr, full: bool): seq<Token>
    decreases e, 0
  {
    match e
    case NumC(n) => if n < 0 then [Punct(SUB), NumT(-n)] else [NumT(n)]
    case StrC(sym) => [StrT(sym)]
    case ObjC(id, server) => [ObjT(id, server)]
    case ErrC(err) => [ErrT(err)]
    case Local(k) => [NameT(k)]
    case Bin(op, l, r) => Print(l, Prec(e), full) + [Punct(Word(op))] + Print(r, Prec(e) + 1, full)
    case Short(any, l, r) => Print(l, Prec(e), full) + [Punct(Branch(any))] + Print(r, Prec(e) + 1, full)
    case Not(x) => [Punct(NOT)] + Print(x, UNARY, full)
    case Neg(x) => [Punct(SUB)] + Print(x, UNARY, full)
    case ListC(args) => [LBrace] + PrintArgs(args, full) + [RBrace]
  }

  /** decompile_args. */
  function PrintArgs(a: Args, full: bool): seq<Token>
    decreases a
  {
    match a
    case NoArgs => []
    case Arg(e, splice, rest) => PrintArg(e, splice, full) + if rest.NoArgs? then [] else [Comma] + PrintArgs(rest, full)
  }

  function PrintArg(e: Expr, splice: bool, full: bool): seq<Token>
    decreases e, 2
  {
    if !splice then Print(e, 0, full)
    else
      var body := [Splice] + Print(e, UNARY, full);
      if full then [Open] + body + [Close] else body
  }

  // ---------------------------------------------------------------- reading

  type Read<T> = Option<(T, seq<Token>)>

  function Join(op: int, l: Expr, r: Expr): Expr {
    if op == AND then Short(false, l, r) else if op == OR then Short(true, l, r)
    else match OpOf(op) case Some(o) => Bin(o, l, r) case None => l
  }

  /** The operators in the order of the lines that declare them, the loosest first: '=', UPTO and then those of this
      model. The operators of a line group to the left. */
  const LINES: seq<set<int>> :=
    [{}, {}, {OR}, {AND}, {IN}, {EQ, NE}, {LT, LE, GT, GE}, {ADD, SUB}, {MUL, DIV, MOD}]

  /** The line of an operator, counted from 1, or 0. */
  function Line(op: int): (n: nat)
    ensures n <= |LINES| && (n > 0 ==> op in LINES[n - 1]) && (n == 0 ==> forall i :: 0 <= i < |LINES| ==> op !in LINES[i])
  {
    LineFrom(op, 0)
  }

  function LineFrom(op: int, i: nat): (n: nat)
    requires i <= |LINES|
    ensures n <= |LINES| && (n > 0 ==> op in LINES[n - 1])
    ensures n == 0 ==> forall j :: i <= j < |LINES| ==> op !in LINES[j]
    decreases |LINES| - i
  {
    if i == |LINES| then 0 else if op in LINES[i] then i + 1 else LineFrom(op, i + 1)
  }

  /** How tightly what s begins with would bind an expression before it. */
  function Pull(s: seq<Token>): nat { if s != [] && s[0].Punct? then Line(s[0].op) else 0 }

  /** An expression whose operators are of line min or a later one. */
  function ReadExpr(s: seq<Token>, min: nat): (r: Read<Expr>)
    ensures r.Some? ==> |r.value.1| < |s|
    decreases |s|, 1
  {
    match ReadUnary(s) case None => None case Some((e, rest)) => ReadMore(e, rest, min)
  }

  /** The operators and operands after the first one. */
  function ReadMore(l: Expr, s: seq<Token>, min: nat): (r: Read<Expr>)
    ensures r.Some? ==> |r.value.1| <= |s|
    decreases |s|, 0
  {
    var q := Pull(s);
    if q == 0 || q < min then Some((l, s))
    else
      match ReadExpr(s[1..], q + 1)
      case None => None
      case Some((r, rest)) => ReadMore(Join(s[0].op, l, r), rest, min)
  }

  function ReadUnary(s: seq<Token>): (r: Read<Expr>)
    ensures r.Some? ==> |r.value.1| < |s|
    decreases |s|, 0
  {
    if s == [] then None
    else
      var rest := s[1..];
      match s[0]
      case NumT(n) => Some((NumC(n), rest))
      case StrT(sym) => Some((StrC(sym), rest))
      case ObjT(id, server) => Some((ObjC(id, server), rest))
      case ErrT(err) => Some((ErrC(err), rest))
      case NameT(k) => Some((Local(k), rest))
      case Open =>
        (match ReadExpr(rest, 0)
         case None => None
         case Some((e, more)) => if more != [] && more[0] == Close then Some((e, more[1..])) else None)
      case LBrace =>
        if rest != [] && rest[0] == RBrace then Some((ListC(NoArgs), rest[1..]))
        else (match ReadArgs(rest) case None => None case Some((a, more)) => Some((ListC(a), more)))
      case Punct(op) =>
        if op != NOT && op != SUB then None
        else (match ReadUnary(rest)
              case None => None
              case Some((e, more)) => Some((if op == NOT then Not(e) else Neg(e), more)))
      case _ => None
  }

  /** One argument or more, and the brace that ends them. */
  function ReadArgs(s: seq<Token>): (r: Read<Args>)
    ensures r.Some? ==> |r.value.1| < |s|
    decreases |s|, 2
  {
    var splice := s != [] && s[0] == Splice;
    match if splice then ReadUnary(s[1..]) else ReadExpr(s, 0)
    case None => None
    case Some((e, rest)) =>
      if rest == [] then None
      else if rest[0] == RBrace then Some((Arg(e, splice, NoArgs), rest[1..]))
      else if rest[0] != Comma then None
      else match ReadArgs(rest[1..]) case None => None case Some((a, more)) => Some((Arg(e, splice, a), more))
  }

  /** The whole text. */
  function Parse(s: seq<Token>): Option<Expr> {
    match ReadExpr(s, 0) case Some((e, rest)) => if rest == [] then Some(e) else None case None => None
  }

  // ---------------------------------------------------------------- what is read back

  /** e with its negative numbers negated: the text of a negative number is a minus sign and a number. */
  function Signed(e: Expr): Expr {
    match e
    case NumC(n) => if n < 0 then Neg(NumC(-n)) else e
    case Bin(op, l, r) => Bin(op, Signed(l), Signed(r))
    case Short(any, l, r) => Short(any, Signed(l), Signed(r))
    case Not(x) => Not(Signed(x))
    case Neg(x) => Neg(Signed(x))
    case ListC(args) => ListC(SignedArgs(args))
    case _ => e
  }

  function SignedArgs(a: Args): Args {
    match a case NoArgs => NoArgs case Arg(e, splice, rest) => Arg(Signed(e), splice, SignedArgs(rest))
  }

  predicate NonNegative(e: Expr) {
    match e
    case NumC(n) => n >= 0
    case Bin(_, l, r) => NonNegative(l) && NonNegative(r)
    case Short(_, l, r) => NonNegative(l) && NonNegative(r)
    case Not(x) => NonNegative(x)
    case Neg(x) => NonNegative(x)
    case ListC(args) => NonNegativeArgs(args)
    case _ => true
  }

  predicate NonNegativeArgs(a: Args) {
    match a case NoArgs => true case Arg(e, _, rest) => NonNegative(e) && NonNegativeArgs(rest)
  }

  predicate Spliceless(e: Expr) {
    match e
    case Bin(_, l, r) => Spliceless(l) && Spliceless(r)
    case Short(_, l, r) => Spliceless(l) && Spliceless(r)
    case Not(x) => Spliceless(x)
    case Neg(x) => Spliceless(x)
    case ListC(args) => SplicelessArgs(args)
    case _ => true
  }

  predicate SplicelessArgs(a: Args) {
    match a case NoArgs => true case Arg(e, splice, rest) => !splice && Spliceless(e) && SplicelessArgs(rest)
  }

  lemma {:induction false} SignedSame(e: Expr)
    ensures Signed(e) == e <==> NonNegative(e)
    decreases e
  {
    match e {
      case Bin(_, l, r) => SignedSame(l); SignedSame(r);
      case Short(_, l, r) => SignedSame(l); SignedSame(r);
      case Not(x) => SignedSame(x);
      case Neg(x) => SignedSame(x);
      case ListC(args) => SignedSameArgs(args);
      case _ =>
    }
  }

  lemma {:induction false} SignedSameArgs(a: Args)
    ensures SignedArgs(a) == a <==> NonNegativeArgs(a)
    decreases a
  {
    if a.Arg? {
      SignedSame(a.e);
      SignedSameArgs(a.rest);
    }
  }

  // ---------------------------------------------------------------- round trips

  /** The text of an operand: brackets or nothing that an operator could reach into. */
  predicate Closed(e: Expr, prec: nat, full: bool) { !(e.Bin? || e.Short?) || Bracketed(e, prec, full) }

  predicate Prints(e: Expr, full: bool) { full ==> Spliceless(e) }

  predicate Sides(e: Expr, l: Expr, r: Expr) { (e.Bin? && e.l == l && e.r == r) || (e.Short? && e.l == l && e.r == r) }

  /** No operator is on two lines. */
  lemma LineIs(op: int, i: nat)
    requires i < |LINES| && op in LINES[i]
    ensures Line(op) == i + 1
  {
    var n := Line(op);
    OneLine(op, i, n - 1);
  }

  lemma OneLine(op: int, i: nat, j: nat)
    requires i < |LINES| && j < |LINES| && op in LINES[i] && op in LINES[j]
    ensures i == j
  {
  }

  /** The table of decompile_expr and the lines of the grammar agree. */
  lemma TableAgrees(op: int)
    ensures PrecOf(op) == Line(op)
  {
    var n := PrecOf(op);
    if n > 0 {
      assert op in LINES[n - 1];
      LineIs(op, n - 1);
    } else {
      assert forall i :: 0 <= i < |LINES| ==> op !in LINES[i];
    }
  }

  lemma Levels(e: Expr)
    ensures e.Bin? || e.Short? ==> 0 < Prec(e) < UNARY
  {
  }

  /** What an expression's text may begin with. */
  lemma {:induction false} Starts(e: Expr, prec: nat, full: bool)
    ensures |Print(e, prec, full)| > 0 && Print(e, prec, full)[0] !in {Splice, Close, RBrace, Comma}
    decreases e
  {
    match e {
      case Bin(_, l, _) => Starts(l, Prec(e), full);
      case Short(_, l, _) => Starts(l, Prec(e), full);
      case _ =>
    }
  }

  /** Once its first operand has been read. */
  lemma FirstThen(s: seq<Token>, e: Expr, rest: seq<Token>, min: nat)
    requires ReadUnary(s) == Some((e, rest))
    ensures ReadExpr(s, min) == ReadMore(e, rest, min)
  {
  }

  lemma NoMore(e: Expr, s: seq<Token>, min: nat)
    requires Pull(s) == 0 || Pull(s) < min
    ensures ReadMore(e, s, min) == Some((e, s))
  {
  }

  lemma OpThen(l: Expr, op: int, s: seq<Token>, r: Expr, rest: seq<Token>, min: nat)
    requires 0 < PrecOf(op) && min <= PrecOf(op) && ReadExpr(s, PrecOf(op) + 1) == Some((r, rest))
    ensures ReadMore(l, [Punct(op)] + s, min) == ReadMore(Join(op, l, r), rest, min)
  {
    TableAgrees(op);
    assert ([Punct(op)] + s)[1..] == s;
  }

  lemma BracketsThen(s: seq<Token>, e: Expr, rest: seq<Token>)
    requires ReadExpr(s, 0) == Some((e, [Close] + rest))
    ensures ReadUnary([Open] + s) == Some((e, rest))
  {
    assert ([Open] + s)[1..] == s && ([Close] + rest)[1..] == rest;
  }

  lemma SignThen(op: int, s: seq<Token>, e: Expr, rest: seq<Token>)
    requires (op == NOT || op == SUB) && ReadUnary(s) == Some((e, rest))
    ensures ReadUnary([Punct(op)] + s) == Some((if op == NOT then Not(e) else Neg(e), rest))
  {
    assert ([Punct(op)] + s)[1..] == s;
  }

  lemma ListThen(s: seq<Token>, a: Args, rest: seq<Token>)
    requires |s| > 0 && s[0] != RBrace && ReadArgs(s) == Some((a, rest))
    ensures ReadUnary([LBrace] + s) == Some((ListC(a), rest))
  {
    assert ([LBrace] + s)[1..] == s;
  }

  lemma {:induction false} UnaryBack(e: Expr, prec: nat, full: bool, rest: seq<Token>)
    requires Closed(e, prec, full) && Prints(e, full)
    ensures ReadUnary(Print(e, prec, full) + rest) == Some((Signed(e), rest))
    decreases e, 2
  {
    if Bracketed(e, prec, full) {
      var b, more := Bare(e, full), [Close] + rest;
      BareBack(e, full, more, 0);
      NoMore(Signed(e), more, 0);
      BracketsThen(b + more, Signed(e), rest);
      assert [Open] + b + [Close] + rest == [Open] + (b + more);
    } else {
      PrimaryBack(e, full, rest);
    }
  }

  /** The text of e without brackets of its own. */
  lemma {:induction false} BareBack(e: Expr, full: bool, rest: seq<Token>, min: nat)
    requires Prints(e, full) && Pull(rest) <= Prec(e) && (e.Bin? || e.Short? ==> min <= Prec(e))
    ensures ReadExpr(Bare(e, full) + rest, min) == ReadMore(Signed(e), rest, min)
    decreases e, 1
  {
    Levels(e);
    match e {
      case Bin(op, l, r) =>
        OpBack(e, Word(op), l, r, full, rest, min);
        JoinedWord(op, Signed(l), Signed(r));
      case Short(any, l, r) => OpBack(e, Branch(any), l, r, full, rest, min);
      case _ =>
        PrimaryBack(e, full, rest);
        FirstThen(Bare(e, full) + rest, Signed(e), rest, min);
    }
  }

  lemma JoinedWord(op: Op, l: Expr, r: Expr)
    ensures Join(Word(op), l, r) == Bin(op, l, r)
  {
  }

  lemma {:induction false} OpBack(e: Expr, op: int, l: Expr, r: Expr, full: bool, rest: seq<Token>, min: nat)
    requires Sides(e, l, r) && Prints(l, full) && Prints(r, full)
    requires PrecOf(op) > 0 && Pull(rest) <= PrecOf(op) && min <= PrecOf(op)
    ensures ReadExpr(Print(l, PrecOf(op), full) + [Punct(op)] + Print(r, PrecOf(op) + 1, full) + rest, min)
            == ReadMore(Join(op, Signed(l), Signed(r)), rest, min)
    decreases e, 0
  {
    hide PrecOf, Line, Signed;
    var t := PrecOf(op);
    var left, right := Print(l, t, full), Print(r, t + 1, full) + rest;
    TableAgrees(op);
    ExprBack(r, t + 1, full, rest, t + 1);
    NoMore(Signed(r), rest, t + 1);
    ExprBack(l, t, full, [Punct(op)] + right, min);
    OpThen(Signed(l), op, right, Signed(r), rest, min);
    Grouped(left, [Punct(op)], Print(r, t + 1, full), rest);
  }

  lemma Grouped(a: seq<Token>, b: seq<Token>, c: seq<Token>, d: seq<Token>)
    ensures a + b + c + d == a + (b + (c + d))
  {
  }

  lemma {:induction false} ExprBack(e: Expr, prec: nat, full: bool, rest: seq<Token>, min: nat)
    requires Prints(e, full) && min <= prec && Pull(rest) <= prec
    ensures ReadExpr(Print(e, prec, full) + rest, min) == ReadMore(Signed(e), rest, min)
    decreases e, 3
  {
    if Closed(e, prec, full) {
      UnaryBack(e, prec, full, rest);
      FirstThen(Print(e, prec, full) + rest, Signed(e), rest, min);
    } else {
      Levels(e);
      BareBack(e, full, rest, min);
    }
  }

  lemma {:induction false} PrimaryBack(e: Expr, full: bool, rest: seq<Token>)
    requires Prints(e, full) && !e.Bin? && !e.Short?
    ensures ReadUnary(Bare(e, full) + rest) == Some((Signed(e), rest))
    decreases e, 0
  {
    match e {
      case Not(x) => SignBack(x, NOT, full, rest);
      case Neg(x) => SignBack(x, SUB, full, rest);
      case ListC(args) => ListBack(args, full, rest);
      case _ => LeafBack(e, full, rest);
    }
  }

  lemma LeafBack(e: Expr, full: bool, rest: seq<Token>)
    requires e.NumC? || e.StrC? || e.ObjC? || e.ErrC? || e.Local?
    ensures ReadUnary(Bare(e, full) + rest) == Some((Signed(e), rest))
  {
    var s := Bare(e, full) + rest;
    if e.NumC? && e.n < 0 {
      var number := [NumT(-e.n)] + rest;
      assert number[1..] == rest && s == [Punct(SUB)] + number;
      SignThen(SUB, number, NumC(-e.n), rest);
    } else {
      assert s[1..] == rest;
    }
  }

  lemma {:induction false} SignBack(x: Expr, op: int, full: bool, rest: seq<Token>)
    requires (op == NOT || op == SUB) && Prints(x, full)
    ensures ReadUnary([Punct(op)] + Print(x, UNARY, full) + rest)
            == Some((if op == NOT then Not(Signed(x)) else Neg(Signed(x)), rest))
    decreases x, 3
  {
    Levels(x);
    UnaryBack(x, UNARY, full, rest);
    var s := Print(x, UNARY, full) + rest;
    SignThen(op, s, Signed(x), rest);
    assert [Punct(op)] + Print(x, UNARY, full) + rest == [Punct(op)] + s;
  }

  lemma {:induction false} ListBack(a: Args, full: bool, rest: seq<Token>)
    requires full ==> SplicelessArgs(a)
    ensures ReadUnary([LBrace] + PrintArgs(a, full) + [RBrace] + rest) == Some((ListC(SignedArgs(a)), rest))
    decreases a, 1
  {
    var s := PrintArgs(a, full) + ([RBrace] + rest);
    assert [LBrace] + PrintArgs(a, full) + [RBrace] + rest == [LBrace] + s;
    if a.NoArgs? {
      assert s == [RBrace] + rest && ([LBrace] + s)[1..] == s && s[1..] == rest;
    } else {
      ArgsBack(a, full, rest);
      if !a.splice { Starts(a.e, 0, full); }
      ListThen(s, SignedArgs(a), rest);
    }
  }

  lemma ArgThen(s: seq<Token>, e: Expr, splice: bool, more: seq<Token>)
    requires |s| > 0 && (s[0] == Splice <==> splice) && |more| > 0
    requires (if splice then ReadUnary(s[1..]) else ReadExpr(s, 0)) == Some((e, more))
    ensures more[0] == RBrace ==> ReadArgs(s) == Some((Arg(e, splice, NoArgs), more[1..]))
    ensures more[0] == Comma && ReadArgs(more[1..]).Some? ==>
              ReadArgs(s) == Some((Arg(e, splice, ReadArgs(more[1..]).value.0), ReadArgs(more[1..]).value.1))
  {
  }

  lemma {:induction false} ArgBack(e: Expr, splice: bool, full: bool, more: seq<Token>)
    requires Prints(e, full) && (full ==> !splice) && Pull(more) == 0
    ensures var s := PrintArg(e, splice, full) + more;
            && |s| > 0 && (s[0] == Splice <==> splice)
            && (if splice then ReadUnary(s[1..]) else ReadExpr(s, 0)) == Some((Signed(e), more))
    decreases e, 4
  {
    var s := PrintArg(e, splice, full) + more;
    if splice {
      Levels(e);
      UnaryBack(e, UNARY, full, more);
      assert s[1..] == Print(e, UNARY, full) + more;
    } else {
      Starts(e, 0, full);
      ExprBack(e, 0, full, more, 0);
      NoMore(Signed(e), more, 0);
    }
  }

  lemma {:induction false} ArgsBack(a: Args, full: bool, rest: seq<Token>)
    requires a.Arg? && (full ==> SplicelessArgs(a))
    ensures ReadArgs(PrintArgs(a, full) + ([RBrace] + rest)) == Some((SignedArgs(a), rest))
    decreases a, 0
  {
    hide Print, ReadExpr, ReadUnary, Signed;
    var first, more := PrintArg(a.e, a.splice, full), [RBrace] + rest;
    if a.rest.NoArgs? {
      ArgBack(a.e, a.splice, full, more);
      ArgThen(first + more, Signed(a.e), a.splice, more);
      assert more[1..] == rest && PrintArgs(a, full) + more == first + more;
    } else {
      ArgsBack(a.rest, full, rest);
      CommaBack(a.e, a.splice, full, PrintArgs(a.rest, full) + more, SignedArgs(a.rest), rest);
      Grouped(first, [Comma], PrintArgs(a.rest, full), more);
      assert PrintArgs(a, full) == first + [Comma] + PrintArgs(a.rest, full);
    }
  }

  lemma {:induction false} CommaBack(e: Expr, splice: bool, full: bool, tail: seq<Token>, a: Args, rest: seq<Token>)
    requires Prints(e, full) && (full ==> !splice) && ReadArgs(tail) == Some((a, rest))
    ensures ReadArgs(PrintArg(e, splice, full) + ([Comma] + tail)) == Some((Arg(Signed(e), splice, a), rest))
    decreases e, 5
  {
    var more := [Comma] + tail;
    ArgBack(e, splice, full, more);
    assert more[1..] == tail;
    ArgThen(PrintArg(e, splice, full) + more, Signed(e), splice, more);
  }

  // ---------------------------------------------------------------- full brackets around a splice

  /** In full brackets every expression is closed, and a splice inside it cannot be read at all: the brackets
      stand around the sign. */
  lemma {:induction false} FullFails(e: Expr, prec: nat, rest: seq<Token>)
    requires !Spliceless(e)
    ensures ReadUnary(Print(e, prec, true) + rest) == None
    decreases e, 2
  {
    Levels(e);
    if Prec(e) > 0 {
      var b, more := Bare(e, true), [Close] + rest;
      assert [Open] + b + [Close] + rest == [Open] + (b + more);
      assert ([Open] + (b + more))[1..] == b + more;
      BareFails(e, more);
    } else {
      BareFails(e, rest);
    }
  }

  lemma {:induction false} BareFails(e: Expr, rest: seq<Token>)
    requires !Spliceless(e)
    ensures ReadExpr(Bare(e, true) + rest, 0) == None
    ensures e.ListC? ==> ReadUnary(Bare(e, true) + rest) == None
    decreases e, 1
  {
    match e {
      case Bin(op, l, r) => OpFails(e, Word(op), l, r, rest);
      case Short(any, l, r) => OpFails(e, Branch(any), l, r, rest);
      case Not(x) => SignFails(x, NOT, rest);
      case Neg(x) => SignFails(x, SUB, rest);
      case ListC(args) =>
        var s := PrintArgs(args, true) + ([RBrace] + rest);
        assert [LBrace] + PrintArgs(args, true) + [RBrace] + rest == [LBrace] + s;
        assert ([LBrace] + s)[1..] == s;
        ArgsFail(args, rest);
    }
  }

  lemma {:induction false} SignFails(x: Expr, op: int, rest: seq<Token>)
    requires !Spliceless(x) && (op == NOT || op == SUB)
    ensures ReadExpr([Punct(op)] + Print(x, UNARY, true) + rest, 0) == None
    decreases x, 3
  {
    var s := Print(x, UNARY, true) + rest;
    FullFails(x, UNARY, rest);
    assert [Punct(op)] + Print(x, UNARY, true) + rest == [Punct(op)] + s && ([Punct(op)] + s)[1..] == s;
    assert ReadUnary([Punct(op)] + s) == None;
  }

  lemma {:induction false} OpFails(e: Expr, op: int, l: Expr, r: Expr, rest: seq<Token>)
    requires Sides(e, l, r) && PrecOf(op) > 0 && !(Spliceless(l) && Spliceless(r))
    ensures ReadExpr(Print(l, PrecOf(op), true) + [Punct(op)] + Print(r, PrecOf(op) + 1, true) + rest, 0) == None
    decreases e, 0
  {
    var t := PrecOf(op);
    var left, right := Print(l, t, true), Print(r, t + 1, true) + rest;
    TableAgrees(op);
    assert left + [Punct(op)] + Print(r, t + 1, true) + rest == left + ([Punct(op)] + right);
    if Spliceless(l) {
      ExprBack(l, t, true, [Punct(op)] + right, 0);
      FullFails(r, t + 1, rest);
      assert ([Punct(op)] + right)[1..] == right;
    } else {
      FullFails(l, t, [Punct(op)] + right);
    }
  }

  lemma {:induction false} ArgsFail(a: Args, rest: seq<Token>)
    requires !SplicelessArgs(a)
    ensures |PrintArgs(a, true)| > 0 && PrintArgs(a, true)[0] != RBrace
    ensures ReadArgs(PrintArgs(a, true) + ([RBrace] + rest)) == None
    decreases a
  {
    var first := PrintArg(a.e, a.splice, true);
    var tail := if a.rest.NoArgs? then [RBrace] + rest else [Comma] + (PrintArgs(a.rest, true) + ([RBrace] + rest));
    assert PrintArgs(a, true) + ([RBrace] + rest) == first + tail;
    if a.splice {
      var inner := [Splice] + Print(a.e, UNARY, true) + [Close] + tail;
      assert first + tail == [Open] + inner && ([Open] + inner)[1..] == inner;
      assert ReadUnary(inner) == None;
      assert ReadExpr(inner, 0) == None;
      assert ReadUnary([Open] + inner) == None;
      assert ReadExpr([Open] + inner, 0) == None;
    } else {
      Starts(a.e, 0, true);
      if Spliceless(a.e) {
        ArgBack(a.e, false, true, tail);
        ArgsFail(a.rest, rest);
        assert tail[1..] == PrintArgs(a.rest, true) + ([RBrace] + rest);
      } else {
        FullFails(a.e, 0, tail);
      }
    }
  }

  // ---------------------------------------------------------------- the main results

  /** What decompile_expr prints with as few brackets as it can is read back to the same tree exactly when no
      number in it is negative; a negative number comes back as a negation. */
  lemma PrintParses(e: Expr)
    ensures Parse(Print(e, 0, false)) == Some(Signed(e))
    ensures Parse(Print(e, 0, false)) == Some(e) <==> NonNegative(e)
  {
    ExprBack(e, 0, false, [], 0);
    NoMore(Signed(e), [], 0);
    assert Print(e, 0, false) + [] == Print(e, 0, false);
    SignedSame(e);
  }

  /** With full brackets it is so exactly when, besides, there is no splice. */
  lemma FullPrintParses(e: Expr)
    ensures Parse(Print(e, 0, true)) == if Spliceless(e) then Some(Signed(e)) else None
    ensures Parse(Print(e, 0, true)) == Some(e) <==> NonNegative(e) && Spliceless(e)
  {
    assert Print(e, 0, true) + [] == Print(e, 0, true);
    SignedSame(e);
    if Spliceless(e) {
      ExprBack(e, 0, true, [], 0);
      NoMore(Signed(e), [], 0);
    } else {
      FullFails(e, 0, []);
    }
  }

  // ---------------------------------------------------------------- how operators group

  /** The text a f b g c, without brackets. */
  function Flat(a: nat, f: int, b: nat, g: int, c: nat): seq<Token> {
    [NameT(a), Punct(f), NameT(b), Punct(g), NameT(c)]
  }

  lemma NameThen(a: nat, s: seq<Token>, min: nat)
    ensures ReadExpr([NameT(a)] + s, min) == ReadMore(Local(a), s, min)
  {
    assert ([NameT(a)] + s)[1..] == s;
  }

  /** Without brackets the operator on the later line binds more tightly, and the left one when the line is the same. */
  lemma GroupsByLine(a: nat, f: int, b: nat, g: int, c: nat, i: nat, j: nat)
    requires i < |LINES| && j < |LINES| && f in LINES[i] && g in LINES[j]
    ensures Parse(Flat(a, f, b, g, c)) ==
            Some(if j <= i then Join(g, Join(f, Local(a), Local(b)), Local(c)) else Join(f, Local(a), Join(g, Local(b), Local(c))))
  {
    var s3 := [NameT(c)];
    var s2 := [Punct(g)] + s3;
    var s1 := [NameT(b)] + s2;
    assert Flat(a, f, b, g, c) == [NameT(a)] + ([Punct(f)] + s1) && s3 + [] == s3;
    LineIs(f, i);
    LineIs(g, j);
    TableAgrees(f);
    TableAgrees(g);
    NameThen(a, [Punct(f)] + s1, 0);
    NameThen(b, s2, i + 2);
    NameThen(c, [], j + 2);
    NoMore(Local(c), [], j + 2);
    if j <= i {
      NoMore(Local(b), s2, i + 2);
      OpThen(Local(a), f, s1, Local(b), s2, 0);
      OpThen(Join(f, Local(a), Local(b)), g, s3, Local(c), [], 0);
      NoMore(Join(g, Join(f, Local(a), Local(b)), Local(c)), [], 0);
    } else {
      OpThen(Local(b), g, s3, Local(c), [], i + 2);
      NoMore(Join(g, Local(b), Local(c)), [], i + 2);
      OpThen(Local(a), f, s1, Join(g, Local(b), Local(c)), [], 0);
      NoMore(Join(f, Local(a), Join(g, Local(b), Local(c))), [], 0);
    }
  }

  /** A sign binds more tightly than any operator. */
  lemma SignsFirst(op: int, a: nat, f: int, b: nat, i: nat)
    requires (op == NOT || op == SUB) && i < |LINES| && f in LINES[i]
    ensures Parse([Punct(op), NameT(a), Punct(f), NameT(b)])
            == Some(Join(f, if op == NOT then Not(Local(a)) else Neg(Local(a)), Local(b)))
  {
    var e := if op == NOT then Not(Local(a)) else Neg(Local(a));
    var s := [Punct(f)] + [NameT(b)];
    assert [Punct(op), NameT(a), Punct(f), NameT(b)] == [Punct(op)] + ([NameT(a)] + s) && [NameT(b)] + [] == [NameT(b)];
    LineIs(f, i);
    TableAgrees(f);
    assert ([NameT(a)] + s)[1..] == s;
    SignThen(op, [NameT(a)] + s, Local(a), s);
    FirstThen([Punct(op)] + ([NameT(a)] + s), e, s, 0);
    NameThen(b, [], i + 2);
    NoMore(Local(b), [], i + 2);
    OpThen(e, f, [NameT(b)], Local(b), [], 0);
    NoMore(Join(f, e, Local(b)), [], 0);
  }

  /** Brackets are printed around an operand exactly where the text without them would group otherwise. */
  lemma BracketsIff(a: nat, f: int, b: nat, g: int, c: nat, i: nat, j: nat)
    requires i < |LINES| && j < |LINES| && f in LINES[i] && g in LINES[j]
    ensures var left, right := Join(g, Join(f, Local(a), Local(b)), Local(c)), Join(f, Local(a), Join(g, Local(b), Local(c)));
            && Print(left, 0, false) == (if Parse(Flat(a, f, b, g, c)) == Some(left) then Flat(a, f, b, g, c)
                                         else [Open, NameT(a), Punct(f), NameT(b), Close, Punct(g), NameT(c)])
            && Print(right, 0, false) == (if Parse(Flat(a, f, b, g, c)) == Some(right) then Flat(a, f, b, g, c)
                                          else [NameT(a), Punct(f), Open, NameT(b), Punct(g), NameT(c), Close])
  {
    hide Parse, Line, PrecOf, Print, Join;
    GroupsByLine(a, f, b, g, c, i, j);
    LineIs(f, i);
    LineIs(g, j);
    TableAgrees(f);
    TableAgrees(g);
    LeftText(a, f, b, g, c);
    RightText(a, f, b, g, c);
    Unlike(a, f, b, g, c);
  }

  lemma Unlike(a: nat, f: int, b: nat, g: int, c: nat)
    requires PrecOf(f) > 0 && PrecOf(g) > 0
    ensures Join(g, Join(f, Local(a), Local(b)), Local(c)) != Join(f, Local(a), Join(g, Local(b), Local(c)))
  {
  }

  lemma LeftText(a: nat, f: int, b: nat, g: int, c: nat)
    requires PrecOf(f) > 0 && PrecOf(g) > 0
    ensures Print(Join(g, Join(f, Local(a), Local(b)), Local(c)), 0, false)
            == if PrecOf(g) <= PrecOf(f) then Flat(a, f, b, g, c)
               else [Open, NameT(a), Punct(f), NameT(b), Close, Punct(g), NameT(c)]
  {
    hide PrecOf, Join;
    JoinPrints(f, Local(a), Local(b), PrecOf(f));
    JoinPrints(g, Join(f, Local(a), Local(b)), Local(c), PrecOf(g));
  }

  lemma RightText(a: nat, f: int, b: nat, g: int, c: nat)
    requires PrecOf(f) > 0 && PrecOf(g) > 0
    ensures Print(Join(f, Local(a), Join(g, Local(b), Local(c))), 0, false)
            == if PrecOf(f) < PrecOf(g) then Flat(a, f, b, g, c)
               else [NameT(a), Punct(f), Open, NameT(b), Punct(g), NameT(c), Close]
  {
    hide PrecOf, Join;
    JoinPrints(g, Local(b), Local(c), PrecOf(g));
    JoinPrints(f, Local(a), Join(g, Local(b), Local(c)), PrecOf(f));
  }

  lemma JoinPrints(op: int, l: Expr, r: Expr, n: nat)
    requires PrecOf(op) == n > 0
    ensures var e := Join(op, l, r);
            && Sides(e, l, r) && Prec(e) == n && Bare(e, false) == Print(l, n, false) + [Punct(op)] + Print(r, n + 1, false)
  {
    hide Print;
    var e := Join(op, l, r);
    if e.Bin? { WordBack(op); }
  }

  lemma WordBack(op: int)
    requires OpOf(op).Some?
    ensures Word(OpOf(op).value) == op
  {
  }
}

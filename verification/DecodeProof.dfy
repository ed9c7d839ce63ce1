/** Decompiling what the layout of VmLang lays out gives the statements back, and so running the words has
    the effect of the statements the decompiler shows. */
module DecodeProof {
  import opened Wrappers
  import opened Values
  import opened Vm
  import opened VmLang
  import opened VmMethod
  import opened VmProof
  import opened VmStmts
  import opened Decode

  // ---------------------------------------------------------------- the text of statements

  function LinesOf(b: Block): seq<Line> {
    match b case Nil => [] case Seq(s, rest) => StmtLines(s) + LinesOf(rest)
  }

  function StmtLines(s: Stmt): seq<Line> {
    match s
    case ExprS(e) => [ExprL(Some(e))]
    case Assign(k, e) => [AssignL(k, Some(e))]
    case Return(e) => [ReturnL(Some(e))]
    case If(cond, body, alt) => [IfL(Some(cond))] + LinesOf(body) + AltLines(alt) + [EndIf]
    case ForRange(k, lo, hi, body) => [ForL(k, Some(lo), Some(hi))] + LinesOf(body) + [EndFor]
    case While(cond, body) => [WhileL(Some(cond))] + LinesOf(body) + [EndWhile]
    case DoWhile(body, cond) => [DoL] + LinesOf(body) + [DoWhileL(Some(cond))]
    case BreakS(level) => [BreakL(Level(level))]
    case ContinueS(level) => [ContinueL(Level(level))]
  }

  function AltLines(a: Alt): seq<Line> {
    match a
    case NoAlt => []
    case ElseIf(cond, body, rest) => [ElseIfL(Some(cond))] + LinesOf(body) + AltLines(rest)
    case Else(body) => [ElseL] + LinesOf(body)
  }

  // ---------------------------------------------------------------- what fits the tables

  function Max(a: nat, b: nat): nat { if a < b then b else a }

  /** Words of tree memory for e. */
  function Words(e: Expr): nat {
    match e
    case Bin(_, l, r) => Words(l) + Words(r) + 3
    case Short(_, l, r) => Words(l) + Words(r) + 3
    case Not(x) => Words(x) + 2
    case Neg(x) => Words(x) + 2
    case ListC(args) => WordsArgs(args) + Count(args) + 2
    case _ => 0
  }

  function WordsArgs(a: Args): nat {
    match a case NoArgs => 0 case Arg(e, splice, rest) => Words(e) + (if splice then 2 else 0) + WordsArgs(rest)
  }

  function Count(a: Args): nat { match a case NoArgs => 0 case Arg(_, _, rest) => 1 + Count(rest) }

  /** Entries of the tree stack that e needs. */
  function Depth(e: Expr): (n: nat)
    ensures n > 0
  {
    match e
    case Bin(_, l, r) => Max(Depth(l), 1 + Depth(r))
    case Short(_, l, r) => Max(Depth(l), 1 + Depth(r))
    case Not(x) => Depth(x)
    case Neg(x) => Depth(x)
    case ListC(args) => 1 + DepthArgs(args)
    case _ => 1
  }

  function DepthArgs(a: Args): nat {
    match a case NoArgs => 0 case Arg(e, _, rest) => Max(Depth(e), 1 + DepthArgs(rest))
  }

  /** e fits above d entries of the stack and n words of the memory. */
  predicate Fit(e: Expr, d: nat, n: nat) { d + Depth(e) < MAX_TSTACK && n + Words(e) < MAX_TREE }

  predicate FitsBlock(b: Block) { match b case Nil => true case Seq(s, rest) => Fits(s) && FitsBlock(rest) }

  predicate Fits(s: Stmt) {
    match s
    case ExprS(e) => Fit(e, 0, 0)
    case Assign(_, e) => Fit(e, 0, 0)
    case Return(e) => Fit(e, 0, 0)
    case If(cond, body, alt) => Fit(cond, 0, 0) && FitsBlock(body) && FitsAlt(alt)
    case ForRange(_, lo, hi, body) => Fit(lo, 0, 0) && Fit(hi, 1, Words(lo)) && FitsBlock(body)
    case While(cond, body) => Fit(cond, 0, 0) && FitsBlock(body)
    case DoWhile(body, cond) => FitsBlock(body) && Fit(cond, 0, 0)
    case BreakS(level) => level >= 1
    case ContinueS(level) => level >= 1
  }

  predicate FitsAlt(a: Alt) {
    match a
    case NoAlt => true
    case ElseIf(cond, body, rest) => Fit(cond, 0, 0) && FitsBlock(body) && FitsAlt(rest)
    case Else(body) => FitsBlock(body)
  }

  // ---------------------------------------------------------------- expressions

  function Grown(t: Trees, e: Expr): Trees { Trees(t.ts + [Tree(e)], t.tptr + Words(e)) }

  function ItemOf(e: Expr, splice: bool): Item { if splice then SpliceTree(e) else Tree(e) }

  function Items(a: Args): (r: seq<Item>)
    ensures |r| == Count(a)
  {
    match a case NoArgs => [] case Arg(e, splice, rest) => [ItemOf(e, splice)] + Items(rest)
  }

  lemma Passed(c: Code, read: Reader, i: nat, t: Trees, j: nat, t': Trees)
    requires Agrees(c.words, read) && i < |c.words| && i + Operands(c.words[i]) < |c.words| && c.words[i] != STOP
    requires ExprStep(c.words, i, t) == Some((t', j))
    ensures read(i, t) == read(j, t')
  {
    assert ReadAt(i, t) && ReadAt(j, t');
  }

  predicate Binary(op: int) {
    Joins(op) && Operands(op) == 0 && !(op in {STOP, NEGATE, NOT, SPLICE, PUSHPC, ARGSTART, LISTPUSH})
  }

  lemma WordBinary(op: Op)
    ensures Binary(Word(op)) && OpOf(Word(op)) == Some(op) && Word(op) != ENDAND && Word(op) != ENDOR
  {
  }

  lemma BinStep(w: seq<int>, i: nat, t: Trees)
    requires i < |w| && Binary(w[i])
    ensures ExprStep(w, i, t) == Some((TreeBinop(t, w[i]), i + 1))
  {
  }

  lemma TwoJoined(t: Trees, l: Expr, r: Expr, op: int)
    requires Joins(op) && |t.ts| + 2 < MAX_TSTACK && t.tptr + Words(l) + Words(r) + 3 < MAX_TREE
    ensures TreeBinop(Grown(Grown(t, l), r), op)
            == Trees(t.ts + [Tree(Joined(op, l, r))], t.tptr + Words(l) + Words(r) + 3)
  {
    assert TPop(Grown(Grown(t, l), r).ts) == Grown(t, l).ts;
    assert TPop(Grown(t, l).ts) == t.ts;
  }

  /** The word of a binary operator joins the two topmost trees. */
  lemma BinReads(c: Code, read: Reader, i: nat, t: Trees, l: Expr, r: Expr, op: int)
    requires Agrees(c.words, read) && At(c, i, [op]) && Binary(op)
    requires |t.ts| + 2 < MAX_TSTACK && t.tptr + Words(l) + Words(r) + 3 < MAX_TREE
    ensures read(i, Grown(Grown(t, l), r)) == read(i + 1, Trees(t.ts + [Tree(Joined(op, l, r))], t.tptr + Words(l) + Words(r) + 3))
  {
    AtWord(c, i, [op]);
    TwoJoined(t, l, r, op);
    BinStep(c.words, i, Grown(Grown(t, l), r));
    Passed(c, read, i, Grown(Grown(t, l), r), i + 1, Trees(t.ts + [Tree(Joined(op, l, r))], t.tptr + Words(l) + Words(r) + 3));
  }

  lemma UnopStep(w: seq<int>, i: nat, t: Trees)
    requires i < |w| && w[i] in {NOT, NEGATE, SPLICE}
    ensures Operands(w[i]) == 0 && ExprStep(w, i, t) == Some((TreeUnop(t, w[i]), i + 1))
  {
  }

  lemma OneJoined(t: Trees, x: Expr, op: int, i1: Item)
    requires Fit(x, |t.ts|, t.tptr) && t.tptr + Words(x) + 2 < MAX_TREE
    requires (op == NOT && i1 == Tree(Not(x))) || (op == NEGATE && i1 == Tree(Neg(x))) || (op == SPLICE && i1 == SpliceTree(x))
    ensures TreeUnop(Grown(t, x), op) == Trees(t.ts + [i1], t.tptr + Words(x) + 2)
  {
    assert TPop(Grown(t, x).ts) == t.ts;
  }

  lemma OneReads(c: Code, read: Reader, i: nat, t: Trees, x: Expr, op: int, i1: Item)
    requires Agrees(c.words, read) && At(c, i, [op]) && Fit(x, |t.ts|, t.tptr) && t.tptr + Words(x) + 2 < MAX_TREE
    requires (op == NOT && i1 == Tree(Not(x))) || (op == NEGATE && i1 == Tree(Neg(x))) || (op == SPLICE && i1 == SpliceTree(x))
    ensures read(i, Grown(t, x)) == read(i + 1, Trees(t.ts + [i1], t.tptr + Words(x) + 2))
  {
    AtWord(c, i, [op]);
    OneJoined(t, x, op, i1);
    UnopStep(c.words, i, Grown(t, x));
    Passed(c, read, i, Grown(t, x), i + 1, Trees(t.ts + [i1], t.tptr + Words(x) + 2));
  }

  /** The words of an expression put its tree on the stack. */
  lemma {:induction false} ExprReads(c: Code, read: Reader, i: nat, e: Expr, t: Trees)
    requires Agrees(c.words, read) && At(c, i, Code1(e, i)) && Fit(e, |t.ts|, t.tptr)
    ensures read(i, t) == read(i + Len(e), Grown(t, e))
    decreases e, 2
  {
    hide Stmts, Code1, Len, Words, Depth;
    match e {
      case Bin(op, l, r) => BothPlaced(c, i, op, l, r); BothRead(c, read, i, op, l, r, t);
      case Short(any, l, r) => ShortPlaced(c, i, any, l, r); ShortReads(c, read, i, any, l, r, t);
      case Not(x) => UnaryReads(c, read, i, e, x, NOT, t);
      case Neg(x) => UnaryReads(c, read, i, e, x, NEGATE, t);
      case ListC(args) => ListPlaced(c, i, args); ListReads(c, read, i, args, t);
      case _ => LeafReads(c, read, i, e, t);
    }
  }

  lemma {:induction false} UnaryReads(c: Code, read: Reader, i: nat, e: Expr, x: Expr, op: int, t: Trees)
    requires (op == NOT && e == Not(x)) || (op == NEGATE && e == Neg(x))
    requires Agrees(c.words, read) && At(c, i, Code1(e, i)) && Fit(e, |t.ts|, t.tptr)
    ensures read(i, t) == read(i + Len(e), Grown(t, e))
    decreases x, 3
  {
    AtSplit(c, i, Code1(x, i), [op]);
    ExprReads(c, read, i, x, t);
    OneReads(c, read, i + Len(x), t, x, op, Tree(e));
  }

  lemma LeafReads(c: Code, read: Reader, i: nat, e: Expr, t: Trees)
    requires Agrees(c.words, read) && At(c, i, Code1(e, i)) && Fit(e, |t.ts|, t.tptr)
    requires e.NumC? || e.StrC? || e.ObjC? || e.ErrC? || e.Local?
    ensures read(i, t) == read(i + Len(e), Grown(t, e))
  {
    var u := Code1(e, i);
    AtWord(c, i, u);
    Passed(c, read, i, t, i + Len(e), Grown(t, e));
  }

  ghost predicate BothAt(c: Code, i: nat, op: Op, l: Expr, r: Expr) {
    At(c, i, Code1(l, i)) && At(c, i + Len(l), Code1(r, i + Len(l))) && At(c, i + Len(l) + Len(r), [Word(op)])
  }

  lemma BothPlaced(c: Code, i: nat, op: Op, l: Expr, r: Expr)
    requires At(c, i, Code1(Bin(op, l, r), i))
    ensures BothAt(c, i, op, l, r)
  {
    AtSplit3(c, i, Code1(l, i), Code1(r, i + Len(l)), [Word(op)]);
  }

  lemma {:induction false} BothRead(c: Code, read: Reader, i: nat, op: Op, l: Expr, r: Expr, t: Trees)
    requires Agrees(c.words, read) && BothAt(c, i, op, l, r) && Fit(Bin(op, l, r), |t.ts|, t.tptr)
    ensures read(i, t) == read(i + Len(Bin(op, l, r)), Grown(t, Bin(op, l, r)))
    decreases Bin(op, l, r), 1
  {
    PairRead(c, read, i, op, l, r, t);
    WordBinary(op);
    BinReads(c, read, i + Len(l) + Len(r), t, l, r, Word(op));
  }

  /** The operands alone. */
  lemma {:induction false} PairRead(c: Code, read: Reader, i: nat, op: Op, l: Expr, r: Expr, t: Trees)
    requires Agrees(c.words, read) && Fit(l, |t.ts|, t.tptr) && Fit(r, |t.ts| + 1, t.tptr + Words(l))
    requires At(c, i, Code1(l, i)) && At(c, i + Len(l), Code1(r, i + Len(l)))
    ensures read(i, t) == read(i + Len(l) + Len(r), Grown(Grown(t, l), r))
    decreases Bin(op, l, r), 0
  {
    hide Code1, Len, Words, Depth;
    ExprReads(c, read, i, l, t);
    ExprReads(c, read, i + Len(l), r, Grown(t, l));
  }

  lemma BranchPassed(c: Code, read: Reader, i: nat, any: bool, end: int, t: Trees)
    requires Agrees(c.words, read) && At(c, i, [Branch(any), end])
    ensures read(i, t) == read(i + 2, t)
  {
    AtWord(c, i, [Branch(any), end]);
    Passed(c, read, i, t, i + 2, t);
  }

  lemma ShortPlaced(c: Code, i: nat, any: bool, l: Expr, r: Expr)
    requires At(c, i, Code1(Short(any, l, r), i))
    ensures ShortAt(c, i, any, l, r)
  {
    var j := i + Len(l);
    AtSplit4(c, i, Code1(l, i), [Branch(any), j + 2 + Len(r)], Code1(r, j + 2), [BranchEnd(any)]);
  }

  ghost predicate ShortAt(c: Code, i: nat, any: bool, l: Expr, r: Expr) {
    var j := i + Len(l);
    && At(c, i, Code1(l, i)) && At(c, j, [Branch(any), j + 2 + Len(r)])
    && At(c, j + 2, Code1(r, j + 2)) && At(c, j + 2 + Len(r), [BranchEnd(any)])
  }

  lemma {:induction false} ShortReads(c: Code, read: Reader, i: nat, any: bool, l: Expr, r: Expr, t: Trees)
    requires Agrees(c.words, read) && ShortAt(c, i, any, l, r) && Fit(Short(any, l, r), |t.ts|, t.tptr)
    ensures read(i, t) == read(i + Len(Short(any, l, r)), Grown(t, Short(any, l, r)))
    decreases Short(any, l, r), 1
  {
    hide Code1;
    TwoRead(c, read, i, any, l, r, t);
    BinReads(c, read, i + Len(l) + 2 + Len(r), t, l, r, BranchEnd(any));
  }

  lemma {:induction false} TwoRead(c: Code, read: Reader, i: nat, any: bool, l: Expr, r: Expr, t: Trees)
    requires Agrees(c.words, read) && Fit(l, |t.ts|, t.tptr) && Fit(r, |t.ts| + 1, t.tptr + Words(l))
    requires At(c, i, Code1(l, i)) && At(c, i + Len(l), [Branch(any), i + Len(l) + 2 + Len(r)])
    requires At(c, i + Len(l) + 2, Code1(r, i + Len(l) + 2))
    ensures read(i, t) == read(i + Len(l) + 2 + Len(r), Grown(Grown(t, l), r))
    decreases Short(any, l, r), 0
  {
    hide Code1, Len, Words, Depth;
    var j := i + Len(l);
    ExprReads(c, read, i, l, t);
    BranchPassed(c, read, j, any, j + 2 + Len(r), Grown(t, l));
    ExprReads(c, read, j + 2, r, Grown(t, l));
  }

  // ---------------------------------------------------------------- lists

  /** Arguments leave one entry each. */
  lemma {:induction false} ArgsRead(c: Code, read: Reader, i: nat, a: Args, t: Trees)
    requires Agrees(c.words, read) && At(c, i, CodeArgs(a, i)) && |t.ts| + DepthArgs(a) < MAX_TSTACK && t.tptr + WordsArgs(a) < MAX_TREE
    ensures read(i, t) == read(i + LenArgs(a), Trees(t.ts + Items(a), t.tptr + WordsArgs(a)))
    decreases a, 0
  {
    hide Code1, Len, Words, Depth;
    match a {
      case NoArgs => assert t.ts + Items(a) == t.ts;
      case Arg(e, splice, rest) =>
        var m := if splice then [SPLICE] else [];
        var j := i + Len(e) + |m|;
        AtSplit3(c, i, Code1(e, i), m, CodeArgs(rest, j));
        ExprReads(c, read, i, e, t);
        if splice { OneReads(c, read, i + Len(e), t, e, SPLICE, SpliceTree(e)); }
        var t1 := Trees(t.ts + [ItemOf(e, splice)], t.tptr + Words(e) + if splice then 2 else 0);
        assert read(i, t) == read(j, t1);
        ArgsRead(c, read, j, rest, t1);
        assert t1.ts + Items(rest) == t.ts + Items(a);
    }
  }

  lemma {:induction false} Above(ts: seq<Item>, items: seq<Item>)
    requires forall k :: 0 <= k < |items| ==> !items[k].Mark?
    ensures ArgCount(ts + [Mark] + items) == |items|
    decreases |items|
  {
    var s, n := ts + [Mark] + items, |items|;
    if n > 0 {
      assert s[..|s| - 1] == ts + [Mark] + items[..n - 1];
      assert s[|s| - 1] == items[n - 1];
      Above(ts, items[..n - 1]);
    }
  }

  lemma {:induction false} NoMarks(a: Args)
    ensures forall k :: 0 <= k < |Items(a)| ==> !Items(a)[k].Mark?
    decreases a
  {
    if a.Arg? { NoMarks(a.rest); }
  }

  /** Taking the arguments off the stack from the top gives them in order. */
  lemma {:induction false} PoppedBack(ts: seq<Item>, s: seq<Item>)
    requires |ts| + |s| < MAX_TSTACK
    ensures Popped(ts + s, |s|) == s && PopMany(ts + s, |s|) == ts
    decreases |s|
  {
    if s == [] {
      assert ts + s == ts;
    } else {
      var k := |s| - 1;
      assert TPop(ts + s) == ts + s[..k];
      PoppedBack(ts, s[..k]);
      assert s == s[..k] + [s[k]];
    }
  }

  lemma {:induction false} ArgsBack(a: Args)
    ensures ArgsOf(Items(a)) == Some(a)
    decreases a
  {
    if a.Arg? {
      ArgsBack(a.rest);
      assert Items(a)[1..] == Items(a.rest);
    }
  }

  /** LISTPUSH makes a list of what is above the innermost marker. */
  lemma ListBuilt(ts: seq<Item>, items: seq<Item>, n: nat, a: Args)
    requires items == Items(a) && |ts| + 1 + |items| < MAX_TSTACK && n + |items| + 2 < MAX_TREE
    ensures TreeList(Trees(ts + [Mark] + items, n)) == Trees(ts + [Tree(ListC(a))], n + |items| + 2)
  {
    NoMarks(a);
    ArgsBack(a);
    Above(ts, items);
    UnmarkedAt(ts, items);
    PoppedBack(ts, items);
  }

  lemma UnmarkedAt(ts: seq<Item>, items: seq<Item>)
    requires ArgCount(ts + [Mark] + items) == |items|
    ensures Unmarked(ts + [Mark] + items) == ts + items
  {
    var s, n := ts + [Mark] + items, |items|;
    assert s[..|s| - n - 1] == ts && s[|s| - n..] == items;
  }

  lemma {:induction false} CountDepth(a: Args)
    ensures Count(a) <= DepthArgs(a)
    decreases a
  {
    if a.Arg? { CountDepth(a.rest); }
  }

  lemma MarkPassed(c: Code, read: Reader, i: nat, t: Trees)
    requires Agrees(c.words, read) && At(c, i, [ARGSTART]) && |t.ts| < MAX_TSTACK
    ensures read(i, t) == read(i + 1, Trees(t.ts + [Mark], t.tptr))
  {
    AtWord(c, i, [ARGSTART]);
    Passed(c, read, i, t, i + 1, Trees(t.ts + [Mark], t.tptr));
  }

  lemma ListPassed(c: Code, read: Reader, i: nat, t: Trees, t': Trees)
    requires Agrees(c.words, read) && At(c, i, [LISTPUSH]) && 0 < |t.ts| <= MAX_TSTACK && TreeList(t) == t'
    ensures read(i, t) == read(i + 1, t')
  {
    AtWord(c, i, [LISTPUSH]);
    ListStep(c.words, i, t);
    Passed(c, read, i, t, i + 1, t');
  }

  lemma ListEnds(c: Code, read: Reader, i: nat, ts: seq<Item>, n: nat, a: Args)
    requires Agrees(c.words, read) && At(c, i, [LISTPUSH])
    requires |ts| + 1 + Count(a) < MAX_TSTACK && n + Count(a) + 2 < MAX_TREE
    ensures read(i, Trees(ts + [Mark] + Items(a), n)) == read(i + 1, Trees(ts + [Tree(ListC(a))], n + Count(a) + 2))
  {
    var items := Items(a);
    var t := Trees(ts + [Mark] + items, n);
    var t' := ListOf(ts, items, n, a);
    ListPassed(c, read, i, t, t');
  }

  lemma ListOf(ts: seq<Item>, items: seq<Item>, n: nat, a: Args) returns (t: Trees)
    requires items == Items(a) && |ts| + 1 + |items| < MAX_TSTACK && n + |items| + 2 < MAX_TREE
    ensures t == Trees(ts + [Tree(ListC(a))], n + |items| + 2) && TreeList(Trees(ts + [Mark] + items, n)) == t
  {
    ListBuilt(ts, items, n, a);
    t := Trees(ts + [Tree(ListC(a))], n + |items| + 2);
  }

  lemma ListStep(w: seq<int>, i: nat, t: Trees)
    requires i < |w| && w[i] == LISTPUSH && 0 < |t.ts| <= MAX_TSTACK
    ensures Operands(w[i]) == 0 && ExprStep(w, i, t) == Some((TreeList(t), i + 1))
  {
  }

  ghost predicate ListAt(c: Code, i: nat, a: Args) {
    At(c, i, [ARGSTART]) && At(c, i + 1, CodeArgs(a, i + 1)) && At(c, i + 1 + LenArgs(a), [LISTPUSH])
  }

  lemma ListPlaced(c: Code, i: nat, a: Args)
    requires At(c, i, Code1(ListC(a), i))
    ensures ListAt(c, i, a)
  {
    AtSplit3(c, i, [ARGSTART], CodeArgs(a, i + 1), [LISTPUSH]);
  }

  lemma {:induction false} ListReads(c: Code, read: Reader, i: nat, a: Args, t: Trees)
    requires Agrees(c.words, read) && ListAt(c, i, a) && Fit(ListC(a), |t.ts|, t.tptr)
    ensures read(i, t) == read(i + Len(ListC(a)), Grown(t, ListC(a)))
    decreases a, 2
  {
    MarkedRead(c, read, i, a, t);
    CountDepth(a);
    ListEnds(c, read, i + 1 + LenArgs(a), t.ts, t.tptr + WordsArgs(a), a);
  }

  lemma {:induction false} MarkedRead(c: Code, read: Reader, i: nat, a: Args, t: Trees)
    requires Agrees(c.words, read) && At(c, i, [ARGSTART]) && At(c, i + 1, CodeArgs(a, i + 1))
    requires |t.ts| + 1 + DepthArgs(a) < MAX_TSTACK && t.tptr + WordsArgs(a) < MAX_TREE
    ensures read(i, t) == read(i + 1 + LenArgs(a), Trees(t.ts + [Mark] + Items(a), t.tptr + WordsArgs(a)))
    decreases a, 1
  {
    MarkPassed(c, read, i, t);
    ArgsRead(c, read, i + 1, a, Trees(t.ts + [Mark], t.tptr));
  }
}

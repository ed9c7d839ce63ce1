/** Decompiled statements: the lines written for the words of a block are those of the block, they can be
    read back in one way only, and running the words has the effect of the statements they show. */
module DecodeStmts {
  import opened Wrappers
  import opened Values
  import opened Vm
  import opened VmLang
  import opened VmProof
  import opened VmStmts
  import opened VmRuns
  import opened VmMethod
  import opened Decode
  import opened DecodeProof

  const EMPTY := Trees([], 0)

  function One(e: Expr): Trees { Trees([Tree(e)], Words(e)) }

  // ---------------------------------------------------------------- one line

  lemma ExprLine(c: Code, read: Reader, i: nat, e: Expr)
    requires Agrees(c.words, read) && At(c, i, Code1(e, i)) && Fit(e, 0, 0)
    ensures read(i, EMPTY) == read(i + Len(e), One(e))
  {
    ExprReads(c, read, i, e, EMPTY);
    assert Grown(EMPTY, e) == One(e);
  }

  /** The lines that need nothing but the words of their instruction. */
  predicate Simple(u: seq<int>, e: Expr, line: Line) {
    || (u == [POP] && line == ExprL(Some(e)))
    || (|u| == 2 && u[0] == ASGNLVAR && line == AssignL(u[1], Some(e)))
    || (u == [T_RETURN] && line == ReturnL(Some(e)))
    || (|u| == 3 && u[0] == DOWHILE && line == DoWhileL(Some(e)))
  }

  predicate Structured(op: int) {
    op in {IF, ELSEIF, ELSE, FORRNG, WHILE, DO, DOWHILE, POP, ASGNLVAR, T_RETURN, CONTINUE, BREAK}
  }

  lemma Lined(c: Code, read: Reader, i: nat, u: seq<int>, t: Trees)
    requires Agrees(c.words, read) && At(c, i, u) && |u| > 0 && |u| == 1 + Operands(u[0]) && Structured(u[0])
    ensures i < |c.words| && i + Operands(c.words[i]) < |c.words| && read(i, t) == OneLine(c.words, i, t)
    ensures c.words[i] == u[0] && (|u| > 1 ==> c.words[i + 1] == u[1]) && (|u| > 2 ==> c.words[i + 2] == u[2])
  {
    AtWord(c, i, u);
    assert ReadAt(i, t);
    assert ExprStep(c.words, i, t) == None;
  }

  lemma SimpleLine(c: Code, read: Reader, i: nat, u: seq<int>, e: Expr, line: Line)
    requires Agrees(c.words, read) && At(c, i, u) && Simple(u, e, line)
    ensures read(i, One(e)) == Prepend([line], read(i + |u|, EMPTY))
  {
    Lined(c, read, i, u, One(e));
    assert ReadAt(i + |u|, EMPTY);
    assert TPop(One(e).ts) == [];
  }

  lemma JumpLine(c: Code, read: Reader, i: nat, u: seq<int>, line: Line)
    requires Agrees(c.words, read) && At(c, i, u) && |u| == 2
    requires (u[0] == BREAK && line == BreakL(Level(u[1]))) || (u[0] == CONTINUE && line == ContinueL(Level(u[1]))) || (u[0] == DO && line == DoL)
    ensures read(i, EMPTY) == Prepend([line], read(i + 2, EMPTY))
  {
    Lined(c, read, i, u, EMPTY);
    assert ReadAt(i + 2, EMPTY);
  }

  lemma StopLine(c: Code, read: Reader, i: nat, lines: seq<Line>, start: nat)
    requires Agrees(c.words, read) && At(c, i, [STOP]) && read(start, EMPTY) == Prepend(lines, read(i, EMPTY))
    ensures read(start, EMPTY) == Some(Text(lines, EMPTY))
  {
    AtWord(c, i, [STOP]);
    assert ReadAt(i, EMPTY);
    assert lines + [] == lines;
  }

  lemma IfLine(c: Code, read: Reader, i: nat, next: nat, end: nat, e: Expr, body: seq<Line>, more: seq<Line>)
    requires Agrees(c.words, read) && At(c, i, [IF, next, end]) && i < next < |c.words| && i < end
    requires read(i + 3, EMPTY) == Some(Text(body, EMPTY))
    requires if c.words[next] == STOP then more == [] else read(next, EMPTY) == Some(Text(more, EMPTY))
    ensures read(i, One(e)) == Prepend([IfL(Some(e))] + body + more + [EndIf], read(end, EMPTY))
  {
    Lined(c, read, i, [IF, next, end], One(e));
    assert ReadAt(i + 3, EMPTY) && ReadAt(next, EMPTY) && ReadAt(end, EMPTY);
    assert TPop(One(e).ts) == [];
  }

  lemma ElseIfLine(c: Code, read: Reader, i: nat, next: nat, e: Expr, body: seq<Line>)
    requires Agrees(c.words, read) && At(c, i, [ELSEIF, next]) && i < next && read(i + 2, EMPTY) == Some(Text(body, EMPTY))
    ensures read(i, One(e)) == Prepend([ElseIfL(Some(e))] + body, read(next, EMPTY))
  {
    Lined(c, read, i, [ELSEIF, next], One(e));
    assert ReadAt(i + 2, EMPTY) && ReadAt(next, EMPTY);
    assert TPop(One(e).ts) == [];
  }

  lemma ElseLine(c: Code, read: Reader, i: nat)
    requires Agrees(c.words, read) && At(c, i, [ELSE])
    ensures read(i, EMPTY) == Prepend([ElseL], read(i + 1, EMPTY))
  {
    Lined(c, read, i, [ELSE], EMPTY);
    assert ReadAt(i + 1, EMPTY);
  }

  lemma WhileLine(c: Code, read: Reader, i: nat, end: nat, e: Expr, body: seq<Line>)
    requires Agrees(c.words, read) && At(c, i, [WHILE, end]) && i < end && read(i + 2, EMPTY) == Some(Text(body, EMPTY))
    ensures read(i, One(e)) == Prepend([WhileL(Some(e))] + body + [EndWhile], read(end, EMPTY))
  {
    Lined(c, read, i, [WHILE, end], One(e));
    assert ReadAt(i + 2, EMPTY) && ReadAt(end, EMPTY);
    assert TPop(One(e).ts) == [];
  }

  lemma ForLine(c: Code, read: Reader, i: nat, k: nat, end: nat, lo: Expr, hi: Expr, body: seq<Line>)
    requires Agrees(c.words, read) && At(c, i, [FORRNG, k, end]) && i < end && read(i + 3, EMPTY) == Some(Text(body, EMPTY))
    ensures read(i, Grown(One(lo), hi)) == Prepend([ForL(k, Some(lo), Some(hi))] + body + [EndFor], read(end, EMPTY))
  {
    var t := Grown(One(lo), hi);
    Lined(c, read, i, [FORRNG, k, end], t);
    assert ReadAt(i + 3, EMPTY) && ReadAt(end, EMPTY);
    assert TPop(t.ts) == [Tree(lo)] && TPop([Tree(lo)]) == [];
  }

  lemma StartPassed(c: Code, read: Reader, i: nat)
    requires Agrees(c.words, read) && At(c, i, [PUSHPC])
    ensures read(i, EMPTY) == read(i + 1, EMPTY)
  {
    AtWord(c, i, [PUSHPC]);
    Passed(c, read, i, EMPTY, i + 1, EMPTY);
  }

  // ---------------------------------------------------------------- blocks

  lemma PrependTwo(a: seq<Line>, b: seq<Line>, r: Option<Text>)
    ensures Prepend(a, Prepend(b, r)) == Prepend(a + b, r)
  {
    if r.Some? { assert a + (b + r.value.lines) == a + b + r.value.lines; }
  }

  lemma PrependNone(r: Option<Text>)
    ensures Prepend([], r) == r
  {
    if r.Some? { assert [] + r.value.lines == r.value.lines; }
  }

  /** The words of a block are decompiled to its lines. */
  lemma {:induction false} BlockReads(c: Code, read: Reader, i: nat, b: Block)
    requires Agrees(c.words, read) && At(c, i, CodeBlock(b, i)) && FitsBlock(b)
    ensures read(i, EMPTY) == Prepend(LinesOf(b), read(i + LenBlock(b), EMPTY))
    decreases b, 1
  {
    match b {
      case Nil => PrependNone(read(i, EMPTY));
      case Seq(s, rest) =>
        var j := i + LenStmt(s);
        AtSplit(c, i, CodeStmt(s, i), CodeBlock(rest, j));
        StmtReads(c, read, i, s);
        BlockReads(c, read, j, rest);
        PrependTwo(StmtLines(s), LinesOf(rest), read(j + LenBlock(rest), EMPTY));
    }
  }

  /** A body, with the word STOP after it. */
  lemma {:induction false} BodyReads(c: Code, read: Reader, i: nat, b: Block)
    requires Agrees(c.words, read) && At(c, i, CodeBlock(b, i)) && At(c, i + LenBlock(b), [STOP]) && FitsBlock(b)
    ensures read(i, EMPTY) == Some(Text(LinesOf(b), EMPTY))
    decreases b, 2
  {
    BlockReads(c, read, i, b);
    StopLine(c, read, i + LenBlock(b), LinesOf(b), i);
  }

  lemma {:induction false} StmtReads(c: Code, read: Reader, i: nat, s: Stmt)
    requires Agrees(c.words, read) && At(c, i, CodeStmt(s, i)) && Fits(s)
    ensures read(i, EMPTY) == Prepend(StmtLines(s), read(i + LenStmt(s), EMPTY))
    decreases s, 1
  {
    match s {
      case If(cond, body, alt) => IfPlaced(c, cond, body, alt, i); IfReads(c, read, i, s, cond, body, alt);
      case ForRange(k, lo, hi, body) => ForPlaced(c, k, lo, hi, body, i); ForReads(c, read, i, s, k, lo, hi, body);
      case While(cond, body) => WhilePlaced(c, cond, body, i); WhileReads(c, read, i, s, cond, body);
      case DoWhile(body, cond) => DoPlaced(c, body, cond, i); DoReads(c, read, i, s, body, cond);
      case BreakS(level) => JumpLine(c, read, i, [BREAK, level], BreakL(Level(level)));
      case ContinueS(level) => JumpLine(c, read, i, [CONTINUE, level], ContinueL(Level(level)));
      case _ => PlainReads(c, read, i, s);
    }
  }

  lemma PlainReads(c: Code, read: Reader, i: nat, s: Stmt)
    requires Agrees(c.words, read) && At(c, i, CodeStmt(s, i)) && Fits(s) && (s.ExprS? || s.Assign? || s.Return?)
    ensures read(i, EMPTY) == Prepend(StmtLines(s), read(i + LenStmt(s), EMPTY))
  {
    match s {
      case ExprS(e) => LineReads(c, read, i, e, [POP], ExprL(Some(e)));
      case Assign(k, e) => LineReads(c, read, i, e, [ASGNLVAR, k], AssignL(k, Some(e)));
      case Return(e) => LineReads(c, read, i, e, [T_RETURN], ReturnL(Some(e)));
    }
  }

  lemma LineReads(c: Code, read: Reader, i: nat, e: Expr, u: seq<int>, line: Line)
    requires Agrees(c.words, read) && At(c, i, Code1(e, i) + u) && Fit(e, 0, 0) && Simple(u, e, line)
    ensures read(i, EMPTY) == Prepend([line], read(i + Len(e) + |u|, EMPTY))
  {
    AtSplit(c, i, Code1(e, i), u);
    ExprLine(c, read, i, e);
    SimpleLine(c, read, i + Len(e), u, e, line);
  }

  lemma {:induction false} IfReads(c: Code, read: Reader, i: nat, s: Stmt, cond: Expr, body: Block, alt: Alt)
    requires Agrees(c.words, read) && s == If(cond, body, alt) && IfAt(c, cond, body, alt, i)
    requires Fit(cond, 0, 0) && FitsBlock(body) && FitsAlt(alt)
    ensures read(i, EMPTY) == Prepend(StmtLines(s), read(i + LenStmt(s), EMPTY))
    decreases s, 0
  {
    hide Code1, CodeBlock, Words, Depth, Len;
    var j := i + Len(cond);
    var next := j + 3 + LenBlock(body) + 1;
    ExprLine(c, read, i, cond);
    BodyReads(c, read, j + 3, body);
    AltStart(c, next, alt);
    AltReads(c, read, next, alt);
    IfLine(c, read, j, next, next + LenAlt(alt) + 1, cond, LinesOf(body), AltLines(alt));
  }

  /** The words of an else part begin with STOP only when there is none. */
  lemma AltStart(c: Code, i: nat, a: Alt)
    requires At(c, i, CodeAlt(a, i)) && At(c, i + LenAlt(a), [STOP])
    ensures i < |c.words| && (c.words[i] == STOP <==> a.NoAlt?)
  {
    match a {
      case NoAlt => AtWord(c, i, [STOP]);
      case Else(body) =>
        AtSplit3(c, i, [ELSE], CodeBlock(body, i + 1), [STOP]);
        AtWord(c, i, [ELSE]);
      case ElseIf(cond, body, rest) =>
        ElseIfPlaced(c, cond, body, rest, i);
        NotStop(cond, i);
        AtWord(c, i, Code1(cond, i));
    }
  }

  lemma {:induction false} NotStop(e: Expr, base: nat)
    ensures Code1(e, base)[0] != STOP
    decreases e
  {
    match e {
      case Bin(_, l, _) => NotStop(l, base);
      case Not(x) => NotStop(x, base);
      case Neg(x) => NotStop(x, base);
      case Short(_, l, _) => NotStop(l, base);
      case _ =>
    }
  }

  lemma {:induction false} AltReads(c: Code, read: Reader, i: nat, a: Alt)
    requires Agrees(c.words, read) && At(c, i, CodeAlt(a, i)) && At(c, i + LenAlt(a), [STOP]) && FitsAlt(a)
    ensures read(i, EMPTY) == Some(Text(AltLines(a), EMPTY))
    decreases a, 1
  {
    match a {
      case NoAlt =>
        PrependNone(read(i, EMPTY));
        StopLine(c, read, i, [], i);
      case Else(body) =>
        AtSplit3(c, i, [ELSE], CodeBlock(body, i + 1), [STOP]);
        ElseLine(c, read, i);
        BodyReads(c, read, i + 1, body);
      case ElseIf(cond, body, rest) =>
        ElseIfPlaced(c, cond, body, rest, i);
        ElseIfReads(c, read, i, a, cond, body, rest);
    }
  }

  lemma {:induction false} ElseIfReads(c: Code, read: Reader, i: nat, a: Alt, cond: Expr, body: Block, rest: Alt)
    requires Agrees(c.words, read) && a == ElseIf(cond, body, rest) && ElseIfAt(c, cond, body, rest, i)
    requires Fit(cond, 0, 0) && FitsBlock(body) && FitsAlt(rest)
    ensures read(i, EMPTY) == Some(Text([ElseIfL(Some(cond))] + LinesOf(body) + AltLines(rest), EMPTY))
    decreases a, 0
  {
    var j := i + Len(cond);
    var next := j + 2 + LenBlock(body) + 1;
    ExprLine(c, read, i, cond);
    BodyReads(c, read, j + 2, body);
    AltReads(c, read, next, rest);
    ElseIfLine(c, read, j, next, cond, LinesOf(body));
  }

  lemma {:induction false} ForReads(c: Code, read: Reader, i: nat, s: Stmt, k: nat, lo: Expr, hi: Expr, body: Block)
    requires Agrees(c.words, read) && s == ForRange(k, lo, hi, body) && ForAt(c, k, lo, hi, body, i)
    requires Fit(lo, 0, 0) && Fit(hi, 1, Words(lo)) && FitsBlock(body)
    ensures read(i, EMPTY) == Prepend(StmtLines(s), read(i + LenStmt(s), EMPTY))
    decreases s, 0
  {
    var at := i + Len(lo) + Len(hi);
    ExprLine(c, read, i, lo);
    ExprReads(c, read, i + Len(lo), hi, One(lo));
    BodyReads(c, read, at + 3, body);
    ForLine(c, read, at, k, at + 3 + LenBlock(body) + 1, lo, hi, LinesOf(body));
  }

  lemma {:induction false} WhileReads(c: Code, read: Reader, i: nat, s: Stmt, cond: Expr, body: Block)
    requires Agrees(c.words, read) && s == While(cond, body) && Fit(cond, 0, 0) && FitsBlock(body)
    requires WhileAt(c, cond, body, i, i + 1 + Len(cond) + 2 + LenBlock(body) + 1)
    ensures read(i, EMPTY) == Prepend(StmtLines(s), read(i + LenStmt(s), EMPTY))
    decreases s, 0
  {
    var at := i + 1 + Len(cond);
    StartPassed(c, read, i);
    ExprLine(c, read, i + 1, cond);
    BodyReads(c, read, at + 2, body);
    WhileLine(c, read, at, at + 2 + LenBlock(body) + 1, cond, LinesOf(body));
  }

  lemma {:induction false} DoReads(c: Code, read: Reader, i: nat, s: Stmt, body: Block, cond: Expr)
    requires Agrees(c.words, read) && s == DoWhile(body, cond) && FitsBlock(body) && Fit(cond, 0, 0)
    requires At(c, i, [DO, i + 2 + LenBlock(body) + Len(cond)]) && DoAt(c, body, cond, i + 2)
    ensures read(i, EMPTY) == Prepend(StmtLines(s), read(i + LenStmt(s), EMPTY))
    decreases s, 0
  {
    var at := i + 2 + LenBlock(body);
    var dw := at + Len(cond);
    JumpLine(c, read, i, [DO, dw], DoL);
    BlockReads(c, read, i + 2, body);
    ExprLine(c, read, at, cond);
    SimpleLine(c, read, dw, [DOWHILE, i + 2, at], cond, DoWhileL(Some(cond)));
    PrependTwo(LinesOf(body), [DoWhileL(Some(cond))], read(dw + 3, EMPTY));
    PrependTwo([DoL], LinesOf(body) + [DoWhileL(Some(cond))], read(dw + 3, EMPTY));
    assert [DoL] + (LinesOf(body) + [DoWhileL(Some(cond))]) == [DoL] + LinesOf(body) + [DoWhileL(Some(cond))];
  }

  // ---------------------------------------------------------------- the main results

  /** decompile_stmts gives the statements back that a method was laid out from. */
  lemma Decompiles(c: Code, b: Block)
    requires c.words == Compiled(b) && FitsBlock(b)
    ensures Stmts(c.words, 0, EMPTY) == Some(Text(LinesOf(b), EMPTY))
  {
    var read: Reader := (i: nat, t) => Stmts(c.words, i, t);
    AllPlaced(c, b);
    BodyReads(c, read, 0, b);
  }

  // ---------------------------------------------------------------- reading lines

  /** A line that no statement begins with. */
  predicate Closes(l: Line) {
    l.ElseIfL? || l.ElseL? || l.EndIf? || l.EndFor? || l.EndWhile? || l.DoWhileL?
  }

  predicate Ends(x: seq<Line>) { x == [] || Closes(x[0]) }

  lemma {:induction false} BlocksSame(a: Block, x: seq<Line>, b: Block, y: seq<Line>)
    requires LinesOf(a) + x == LinesOf(b) + y && Ends(x) && Ends(y) && FitsBlock(a) && FitsBlock(b)
    ensures a == b && x == y
    decreases a, 1
  {
    assert b.Nil? ==> LinesOf(b) + y == y;
    match a {
      case Nil =>
        assert LinesOf(a) + x == x;
        if b.Seq? { StartsOpen(b, y); }
      case Seq(s, more) =>
        StartsOpen(a, x);
        assert LinesOf(a) + x == StmtLines(s) + (LinesOf(more) + x);
        assert LinesOf(b) + y == StmtLines(b.s) + (LinesOf(b.rest) + y);
        StmtsSame(s, LinesOf(more) + x, b.s, LinesOf(b.rest) + y);
        BlocksSame(more, x, b.rest, y);
    }
  }

  lemma StartsOpen(b: Block, y: seq<Line>)
    requires b.Seq?
    ensures |LinesOf(b) + y| > 0 && !Closes((LinesOf(b) + y)[0])
  {
    assert LinesOf(b)[0] == StmtLines(b.s)[0];
  }

  lemma {:induction false} StmtsSame(s: Stmt, x: seq<Line>, t: Stmt, y: seq<Line>)
    requires StmtLines(s) + x == StmtLines(t) + y && Fits(s) && Fits(t)
    ensures s == t && x == y
    decreases s
  {
    assert (StmtLines(s) + x)[0] == StmtLines(s)[0] && (StmtLines(t) + y)[0] == StmtLines(t)[0];
    match s {
      case If(cond, body, alt) =>
        var p, q := LinesOf(body) + (AltLines(alt) + ([EndIf] + x)), LinesOf(t.body) + (AltLines(t.alt) + ([EndIf] + y));
        assert StmtLines(s) + x == [IfL(Some(cond))] + p && StmtLines(t) + y == [IfL(Some(t.cond))] + q;
        assert p == ([IfL(Some(cond))] + p)[1..] && q == ([IfL(Some(t.cond))] + q)[1..];
        AltEnds(alt, x);
        AltEnds(t.alt, y);
        BlocksSame(body, AltLines(alt) + ([EndIf] + x), t.body, AltLines(t.alt) + ([EndIf] + y));
        AltsSame(alt, x, t.alt, y);
      case ForRange(k, lo, hi, body) => BodySame(StmtLines(s)[0], body, EndFor, x, StmtLines(t)[0], t.body, EndFor, y);
      case While(cond, body) => BodySame(StmtLines(s)[0], body, EndWhile, x, StmtLines(t)[0], t.body, EndWhile, y);
      case DoWhile(body, cond) => BodySame(DoL, body, DoWhileL(Some(cond)), x, DoL, t.body, DoWhileL(Some(t.cond)), y);
      case _ => assert x == (StmtLines(s) + x)[1..] && y == (StmtLines(t) + y)[1..];
    }
  }

  lemma {:induction false} BodySame(f: Line, a: Block, g: Line, x: seq<Line>, f': Line, b: Block, g': Line, y: seq<Line>)
    requires [f] + LinesOf(a) + [g] + x == [f'] + LinesOf(b) + [g'] + y && Closes(g) && Closes(g')
    requires FitsBlock(a) && FitsBlock(b)
    ensures f == f' && a == b && g == g' && x == y
    decreases a, 2
  {
    var p, q := LinesOf(a) + ([g] + x), LinesOf(b) + ([g'] + y);
    assert [f] + LinesOf(a) + [g] + x == [f] + p && [f'] + LinesOf(b) + [g'] + y == [f'] + q;
    assert p == ([f] + p)[1..] && q == ([f'] + q)[1..] && f == ([f] + p)[0] && f' == ([f'] + q)[0];
    BlocksSame(a, [g] + x, b, [g'] + y);
    assert x == ([g] + x)[1..] && y == ([g'] + y)[1..] && g == ([g] + x)[0] && g' == ([g'] + y)[0];
  }

  lemma AltEnds(a: Alt, x: seq<Line>)
    ensures Ends(AltLines(a) + ([EndIf] + x))
  {
    if a.NoAlt? { assert AltLines(a) + ([EndIf] + x) == [EndIf] + x; }
  }

  lemma {:induction false} AltsSame(a: Alt, x: seq<Line>, b: Alt, y: seq<Line>)
    requires AltLines(a) + ([EndIf] + x) == AltLines(b) + ([EndIf] + y) && FitsAlt(a) && FitsAlt(b)
    ensures a == b && x == y
    decreases a
  {
    var u, v := [EndIf] + x, [EndIf] + y;
    AltFirst(a, u);
    AltFirst(b, v);
    match a {
      case NoAlt =>
        assert AltLines(a) + u == u && AltLines(b) + v == v;
        assert x == u[1..] && y == v[1..];
      case ElseIf(cond, body, rest) =>
        AltEnds(rest, x);
        AltEnds(b.rest, y);
        var p, q := LinesOf(body) + (AltLines(rest) + u), LinesOf(b.body) + (AltLines(b.rest) + v);
        assert AltLines(a) + u == [ElseIfL(Some(cond))] + p && AltLines(b) + v == [ElseIfL(Some(b.cond))] + q;
        assert p == ([ElseIfL(Some(cond))] + p)[1..] && q == ([ElseIfL(Some(b.cond))] + q)[1..];
        BlocksSame(body, AltLines(rest) + u, b.body, AltLines(b.rest) + v);
        AltsSame(rest, x, b.rest, y);
      case Else(body) =>
        assert AltLines(a) + u == [ElseL] + (LinesOf(body) + u) && AltLines(b) + v == [ElseL] + (LinesOf(b.body) + v);
        assert LinesOf(body) + u == ([ElseL] + (LinesOf(body) + u))[1..];
        assert LinesOf(b.body) + v == ([ElseL] + (LinesOf(b.body) + v))[1..];
        BlocksSame(body, u, b.body, v);
        assert x == u[1..] && y == v[1..];
    }
  }

  lemma AltFirst(a: Alt, u: seq<Line>)
    requires |u| > 0 && u[0] == EndIf
    ensures match a
            case NoAlt => (AltLines(a) + u)[0] == EndIf
            case ElseIf(cond, _, _) => (AltLines(a) + u)[0] == ElseIfL(Some(cond))
            case Else(_) => (AltLines(a) + u)[0] == ElseL
  {
  }

  /** The lines of two blocks are the same only when the blocks are. */
  lemma LinesDetermine(a: Block, b: Block)
    requires FitsBlock(a) && FitsBlock(b)
    ensures LinesOf(a) == LinesOf(b) <==> a == b
  {
    if LinesOf(a) == LinesOf(b) {
      assert LinesOf(a) + [] == LinesOf(b) + [];
      BlocksSame(a, [], b, []);
    }
  }

  /** Running the words of a method has exactly the effect of the statements its decompiled text shows. */
  lemma DecompiledRuns(c: Code, b: Block, shown: Block, locals: seq<Var>, fuel: nat)
    requires Method(c, b, locals) && FitsBlock(b) && FitsBlock(shown)
    requires Stmts(c.words, 0, EMPTY) == Some(Text(LinesOf(shown), EMPTY))
    ensures match Meaning(c, shown, locals, fuel)
            case Normal(_) => Stops(c, Start(c, locals), Num(0))
            case Returned(v) => Stops(c, Start(c, locals), v)
            case Failed(e) => Fails(c, Start(c, locals), e)
            case Timeout => Long(c, Start(c, locals), fuel)
            case Strayed => Fails(c, Start(c, locals), E_INTERNAL)
            case _ => false
  {
    Decompiles(c, b);
    LinesDetermine(b, shown);
    MethodRuns(c, b, locals, fuel);
  }
}

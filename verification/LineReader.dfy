/** The grammar that reads the lines of a method (src/src/cool.y:205-284), and that what the decompiler writes is read back
    to the statements it came from. */
module LineReader {
  import opened Wrappers
  import opened Vm
  import opened VmLang
  import opened Decode
  import opened DecodeProof
  import opened DecodeStmts

  type Read<T> = Option<(T, seq<Line>)>

  /** Statements up to a line that closes them; depth loops are around them. */
  function ReadBlock(s: seq<Line>, depth: nat): (r: Read<Block>)
    ensures r.Some? ==> |r.value.1| <= |s|
    decreases |s|, 1
  {
    if Ends(s) then Some((Nil, s))
    else
      match ReadStmt(s, depth)
      case None => None
      case Some((st, t)) =>
        match ReadBlock(t, depth) case None => None case Some((rest, u)) => Some((Seq(st, rest), u))
  }

  function ReadStmt(s: seq<Line>, depth: nat): (r: Read<Stmt>)
    requires s != []
    ensures r.Some? ==> |r.value.1| < |s|
    decreases |s|, 0
  {
    match s[0]
    case ExprL(Some(e)) => Some((ExprS(e), s[1..]))
    case AssignL(k, Some(e)) => if k < 0 then None else Some((Assign(k, e), s[1..]))
    case ReturnL(Some(e)) => Some((Return(e), s[1..]))
    case IfL(Some(e)) =>
      (match ReadBlock(s[1..], depth)
       case None => None
       case Some((body, t)) =>
         match ReadAlt(t, depth)
         case None => None
         case Some((alt, u)) => if u == [] || u[0] != EndIf then None else Some((If(e, body, alt), u[1..])))
    case ForL(k, Some(lo), Some(hi)) =>
      (match ReadBlock(s[1..], depth + 1)
       case None => None
       case Some((body, t)) => if k < 0 || t == [] || t[0] != EndFor then None else Some((ForRange(k, lo, hi, body), t[1..])))
    case WhileL(Some(e)) =>
      (match ReadBlock(s[1..], depth + 1)
       case None => None
       case Some((body, t)) => if t == [] || t[0] != EndWhile then None else Some((While(e, body), t[1..])))
    case DoL =>
      (match ReadBlock(s[1..], depth + 1)
       case None => None
       case Some((body, t)) =>
         if t == [] || !t[0].DoWhileL? || t[0].cond.None? then None else Some((DoWhile(body, t[0].cond.value), t[1..])))
    case BreakL(n) => if 1 <= n <= depth then Some((BreakS(n), s[1..])) else None
    case ContinueL(n) => if 1 <= n <= depth then Some((ContinueS(n), s[1..])) else None
    case _ => None
  }

  function ReadAlt(s: seq<Line>, depth: nat): (r: Read<Alt>)
    ensures r.Some? ==> |r.value.1| <= |s|
    decreases |s|, 0
  {
    if s == [] then Some((NoAlt, s))
    else
      match s[0]
      case ElseIfL(Some(e)) =>
        (match ReadBlock(s[1..], depth)
         case None => None
         case Some((body, t)) =>
           match ReadAlt(t, depth) case None => None case Some((rest, u)) => Some((ElseIf(e, body, rest), u)))
      case ElseL => (match ReadBlock(s[1..], depth) case None => None case Some((body, t)) => Some((Else(body), t)))
      case _ => Some((NoAlt, s))
  }

  /** A whole method. */
  function ReadMethod(lines: seq<Line>): Option<Block> {
    match ReadBlock(lines, 0) case None => None case Some((b, rest)) => if rest == [] then Some(b) else None
  }

  /** Every break and continue is for one of the loops around it. */
  predicate Reach(b: Block, depth: nat) { match b case Nil => true case Seq(s, rest) => ReachStmt(s, depth) && Reach(rest, depth) }

  predicate ReachStmt(s: Stmt, depth: nat) {
    match s
    case If(_, body, alt) => Reach(body, depth) && ReachAlt(alt, depth)
    case ForRange(_, _, _, body) => Reach(body, depth + 1)
    case While(_, body) => Reach(body, depth + 1)
    case DoWhile(body, _) => Reach(body, depth + 1)
    case BreakS(n) => 1 <= n <= depth
    case ContinueS(n) => 1 <= n <= depth
    case _ => true
  }

  predicate ReachAlt(a: Alt, depth: nat) {
    match a
    case NoAlt => true
    case ElseIf(_, body, rest) => Reach(body, depth) && ReachAlt(rest, depth)
    case Else(body) => Reach(body, depth)
  }

  // ---------------------------------------------------------------- reading back

  lemma {:induction false} BlockBack(b: Block, depth: nat, rest: seq<Line>)
    requires Reach(b, depth) && Ends(rest)
    ensures ReadBlock(LinesOf(b) + rest, depth) == Some((b, rest))
    decreases b, 1
  {
    hide StmtLines, ReadStmt, ReachStmt;
    match b {
      case Nil => assert LinesOf(b) + rest == rest;
      case Seq(s, more) =>
        var tail := LinesOf(more) + rest;
        StmtBack(s, depth, tail);
        BlockBack(more, depth, rest);
        Regroup(StmtLines(s), LinesOf(more), rest);
        StartsOpen(b, rest);
        assert !Ends(StmtLines(s) + tail);
    }
  }

  lemma Regroup(a: seq<Line>, b: seq<Line>, c: seq<Line>)
    ensures a + b + c == a + (b + c)
  {
  }

  lemma {:induction false} StmtBack(s: Stmt, depth: nat, rest: seq<Line>)
    requires ReachStmt(s, depth)
    ensures StmtLines(s) != [] && ReadStmt(StmtLines(s) + rest, depth) == Some((s, rest))
    decreases s, 1
  {
    match s {
      case If(cond, body, alt) => IfBack(s, cond, body, alt, depth, rest);
      case ForRange(k, lo, hi, body) => BodyBack(ForL(k, Some(lo), Some(hi)), body, EndFor, depth + 1, rest);
      case While(cond, body) => BodyBack(WhileL(Some(cond)), body, EndWhile, depth + 1, rest);
      case DoWhile(body, cond) => BodyBack(DoL, body, DoWhileL(Some(cond)), depth + 1, rest);
      case _ => assert (StmtLines(s) + rest)[1..] == rest;
    }
  }

  /** A body between two lines. */
  lemma {:induction false} BodyBack(first: Line, body: Block, last: Line, depth: nat, rest: seq<Line>)
    requires Reach(body, depth) && Closes(last)
    ensures var s := [first] + LinesOf(body) + [last] + rest;
            && s[0] == first && ReadBlock(s[1..], depth) == Some((body, [last] + rest)) && ([last] + rest)[1..] == rest
    decreases body, 2
  {
    BlockBack(body, depth, [last] + rest);
    assert ([first] + LinesOf(body) + [last] + rest)[1..] == LinesOf(body) + ([last] + rest);
  }

  lemma {:induction false} IfBack(st: Stmt, cond: Expr, body: Block, alt: Alt, depth: nat, rest: seq<Line>)
    requires st == If(cond, body, alt) && Reach(body, depth) && ReachAlt(alt, depth)
    ensures ReadStmt([IfL(Some(cond))] + LinesOf(body) + AltLines(alt) + [EndIf] + rest, depth) == Some((If(cond, body, alt), rest))
    decreases st, 0
  {
    hide ReadBlock, ReadAlt, LinesOf, AltLines, Reach, ReachAlt;
    var more := AltLines(alt) + ([EndIf] + rest);
    AltEnds(alt, rest);
    BlockBack(body, depth, more);
    AltBack(alt, depth, [EndIf] + rest);
    var s := [IfL(Some(cond))] + LinesOf(body) + AltLines(alt) + [EndIf] + rest;
    assert s[1..] == LinesOf(body) + more && ([EndIf] + rest)[1..] == rest;
  }

  lemma {:induction false} AltBack(a: Alt, depth: nat, rest: seq<Line>)
    requires ReachAlt(a, depth) && rest != [] && rest[0] == EndIf
    ensures ReadAlt(AltLines(a) + rest, depth) == Some((a, rest))
    decreases a
  {
    hide ReadBlock, LinesOf;
    var s := AltLines(a) + rest;
    match a {
      case NoAlt => assert s == rest;
      case ElseIf(cond, body, more) =>
        AltEnds(more, rest[1..]);
        assert [EndIf] + rest[1..] == rest;
        BlockBack(body, depth, AltLines(more) + rest);
        AltBack(more, depth, rest);
        assert s[1..] == LinesOf(body) + (AltLines(more) + rest);
      case Else(body) =>
        BlockBack(body, depth, rest);
        assert s[1..] == LinesOf(body) + rest;
    }
  }

  /** Reading the lines that are written for statements gives the statements, and so compiling what was decompiled gives
      the words it was decompiled from. */
  lemma LinesCompile(c: Code, b: Block)
    requires c.words == Compiled(b) && FitsBlock(b) && Reach(b, 0)
    ensures Stmts(c.words, 0, EMPTY).Some?
    ensures var lines := Stmts(c.words, 0, EMPTY).value.lines;
            ReadMethod(lines) == Some(b) && Compiled(ReadMethod(lines).value) == c.words
  {
    Decompiles(c, b);
    BlockBack(b, 0, []);
    assert LinesOf(b) + [] == LinesOf(b);
  }
}

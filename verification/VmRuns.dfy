/** The statements of a method, one inside the other, by induction on them. */
module VmRuns {
  import opened Wrappers
  import opened Values
  import opened Vm
  import opened VmLang
  import opened VmProof
  import opened VmStmts

  /** What every lemma below starts from. */
  ghost predicate Ready(c: Code, l: seq<Var>, rest: seq<Var>, ctx: seq<Loop>, scope: seq<bool>) {
    Proper(c) && Good(c, l) && |l| + |rest| <= STACK_SIZE && InLoops(c, rest, ctx) && Scoped(c, ctx, scope)
  }

  lemma {:induction false} BlockGoes(c: Code, b: Block, base: nat, l: seq<Var>, rest: seq<Var>, ctx: seq<Loop>,
      scope: seq<bool>, fuel: nat)
    requires Ready(c, l, rest, ctx, scope) && SoundBlock(b, c.nvars, base, scope) && At(c, base, CodeBlock(b, base))
    ensures Does(c, On(base, l, rest), rest, ctx, ExecBlock(c, b, l, |l| + |rest|, fuel), base + LenBlock(b), fuel)
    decreases b, 1
  {
    match b {
      case Nil => GoesSelf(c, On(base, l, rest));
      case Seq(s, more) =>
        AtSplit(c, base, CodeStmt(s, base), CodeBlock(more, base + LenStmt(s)));
        StmtGoes(c, s, base, l, rest, ctx, scope, fuel);
        SeqGoes(c, s, more, base, l, rest, ctx, scope, fuel);
    }
  }

  lemma {:induction false} SeqGoes(c: Code, s: Stmt, more: Block, base: nat, l: seq<Var>, rest: seq<Var>, ctx: seq<Loop>,
      scope: seq<bool>, fuel: nat)
    requires Ready(c, l, rest, ctx, scope) && SoundBlock(more, c.nvars, base + LenStmt(s), scope)
    requires At(c, base + LenStmt(s), CodeBlock(more, base + LenStmt(s)))
    requires Does(c, On(base, l, rest), rest, ctx, Exec(c, s, l, |l| + |rest|, fuel), base + LenStmt(s), fuel)
    ensures Does(c, On(base, l, rest), rest, ctx, ExecBlock(c, Seq(s, more), l, |l| + |rest|, fuel),
                 base + LenStmt(s) + LenBlock(more), fuel)
    decreases more, 2
  {
    var o, i := Exec(c, s, l, |l| + |rest|, fuel), base + LenStmt(s);
    if o.Normal? {
      BlockGoes(c, more, i, o.locals, rest, ctx, scope, fuel);
      SeqJoins(c, On(base, l, rest), i, rest, ctx, o, ExecBlock(c, more, o.locals, |l| + |rest|, fuel),
               i + LenBlock(more), fuel);
    }
  }

  lemma {:induction false} StmtGoes(c: Code, s: Stmt, base: nat, l: seq<Var>, rest: seq<Var>, ctx: seq<Loop>,
      scope: seq<bool>, fuel: nat)
    requires Ready(c, l, rest, ctx, scope) && Sound(s, c.nvars, base, scope) && At(c, base, CodeStmt(s, base))
    ensures Does(c, On(base, l, rest), rest, ctx, Exec(c, s, l, |l| + |rest|, fuel), base + LenStmt(s), fuel)
    decreases s, 1
  {
    hide Code1, CodeBlock, CodeAlt, ExecBlock, ExecAlt, Eval, Len, LenBlock, LenAlt, Known;
    match s {
      case If(cond, body, alt) =>
        IfPlaced(c, cond, body, alt, base);
        IfGoes(c, s, cond, body, alt, base, l, rest, ctx, scope, fuel);
      case ForRange(k, lo, hi, body) =>
        ForPlaced(c, k, lo, hi, body, base);
        ForGoes(c, s, k, lo, hi, body, base, l, rest, ctx, scope, fuel);
      case While(cond, body) =>
        WhilePlaced(c, cond, body, base);
        WhileGoes(c, cond, body, base, base + LenStmt(s), l, rest, ctx, scope, fuel);
      case DoWhile(body, cond) =>
        DoPlaced(c, body, cond, base);
        DoGoes(c, s, body, cond, base, l, rest, ctx, scope, fuel);
      case BreakS(level) =>
        assert ScopeAt(c, ctx, scope, level - 1);
        BreakGoes(c, base, level, l, rest, ctx, fuel);
      case ContinueS(level) => ContinueGoes(c, base, level, l, rest, ctx, fuel);
      case _ => SimpleGoes(c, s, base, l, rest, ctx, scope, fuel);
    }
  }

  lemma SimpleGoes(c: Code, s: Stmt, base: nat, l: seq<Var>, rest: seq<Var>, ctx: seq<Loop>, scope: seq<bool>, fuel: nat)
    requires Ready(c, l, rest, ctx, scope) && (s.ExprS? || s.Assign? || s.Return?)
    requires Sound(s, c.nvars, base, scope) && At(c, base, CodeStmt(s, base))
    ensures Does(c, On(base, l, rest), rest, ctx, Exec(c, s, l, |l| + |rest|, fuel), base + LenStmt(s), fuel)
  {
    match s {
      case ExprS(e) =>
        AtSplit(c, base, Code1(e, base), [POP]);
        var a := EvalOn(c, e, base, l, rest);
        PopJoins(c, base, base + Len(e), l, rest, ctx, a, fuel);
      case Assign(k, e) =>
        AtSplit(c, base, Code1(e, base), [ASGNLVAR, k]);
        var a := EvalOn(c, e, base, l, rest);
        AssignJoins(c, base, base + Len(e), k, l, rest, ctx, a, fuel);
      case Return(e) =>
        AtSplit(c, base, Code1(e, base), [T_RETURN]);
        var a := EvalOn(c, e, base, l, rest);
        ReturnJoins(c, base, base + Len(e), l, rest, ctx, a, fuel);
    }
  }

  // ---------------------------------------------------------------- if

  ghost predicate IfAt(c: Code, cond: Expr, body: Block, alt: Alt, base: nat) {
    var i := base + Len(cond);
    var stop := i + 3 + LenBlock(body);
    var end := stop + 1 + LenAlt(alt) + 1;
    && At(c, base, Code1(cond, base)) && At(c, i, [IF, stop + 1, end]) && At(c, i + 3, CodeBlock(body, i + 3))
    && At(c, stop, [STOP]) && At(c, stop + 1, CodeAlt(alt, stop + 1)) && At(c, end - 1, [STOP])
  }

  lemma IfPlaced(c: Code, cond: Expr, body: Block, alt: Alt, base: nat)
    requires At(c, base, CodeStmt(If(cond, body, alt), base))
    ensures IfAt(c, cond, body, alt, base)
  {
    hide Code1, CodeBlock, CodeAlt, Len, LenBlock, LenAlt;
    var i := base + Len(cond);
    var stop := i + 3 + LenBlock(body);
    var end := stop + 1 + LenAlt(alt) + 1;
    AtSplit3(c, base, Code1(cond, base) + [IF, stop + 1, end] + CodeBlock(body, i + 3) + [STOP], CodeAlt(alt, stop + 1), [STOP]);
    AtSplit4(c, base, Code1(cond, base), [IF, stop + 1, end], CodeBlock(body, i + 3), [STOP]);
  }

  lemma {:induction false} IfGoes(c: Code, s: Stmt, cond: Expr, body: Block, alt: Alt, base: nat, l: seq<Var>,
      rest: seq<Var>, ctx: seq<Loop>, scope: seq<bool>, fuel: nat)
    requires Ready(c, l, rest, ctx, scope) && s == If(cond, body, alt) && Known(cond, c.nvars)
    requires var i := base + Len(cond);
             SoundBlock(body, c.nvars, i + 3, scope) && SoundAlt(alt, c.nvars, i + 3 + LenBlock(body) + 1, scope)
    requires IfAt(c, cond, body, alt, base)
    ensures Does(c, On(base, l, rest), rest, ctx, Exec(c, s, l, |l| + |rest|, fuel),
                 base + Len(cond) + 3 + LenBlock(body) + 1 + LenAlt(alt) + 1, fuel)
    decreases s, 0
  {
    var i, h := base + Len(cond), |l| + |rest|;
    var stop := i + 3 + LenBlock(body);
    var end := stop + 1 + LenAlt(alt) + 1;
    var a := EvalOn(c, cond, base, l, rest);
    YieldsOn(c, base, l, rest, a, i);
    if a.V? {
      InLoopsOver(c, rest, ctx, Num(end));
      if True(a.v) {
        BlockGoes(c, body, i + 3, l, rest + [Num(end)], ctx, scope, fuel);
      } else {
        AltGoes(c, alt, stop + 1, l, rest, end, ctx, scope, fuel);
      }
    }
    IfJoins(c, base, i, stop + 1, stop, end, l, rest, ctx, a, ExecBlock(c, body, l, h + 1, fuel),
            ExecAlt(c, alt, l, h + 1, fuel), fuel);
  }

  lemma {:induction false} AltGoes(c: Code, a: Alt, base: nat, l: seq<Var>, rest: seq<Var>, end: nat, ctx: seq<Loop>,
      scope: seq<bool>, fuel: nat)
    requires Ready(c, l, rest + [Num(end)], ctx, scope) && InLoops(c, rest, ctx) && SoundAlt(a, c.nvars, base, scope)
    requires At(c, base, CodeAlt(a, base)) && At(c, base + LenAlt(a), [STOP])
    ensures Does(c, On(base, l, rest + [Num(end)]), rest, ctx, ExecAlt(c, a, l, |l| + |rest| + 1, fuel), end, fuel)
    decreases a, 1
  {
    match a {
      case NoAlt => StopStep(c, base, l, rest, Num(end), end);
      case ElseIf(cond, body, more) =>
        ElseIfPlaced(c, cond, body, more, base);
        ElseIfGoes(c, a, cond, body, more, base, l, rest, end, ctx, scope, fuel);
      case Else(body) =>
        AtSplit3(c, base, [ELSE], CodeBlock(body, base + 1), [STOP]);
        BlockGoes(c, body, base + 1, l, rest + [Num(end)], ctx, scope, fuel);
        ElseJoins(c, base, base + 1 + LenBlock(body), end, l, rest, ctx, ExecBlock(c, body, l, |l| + |rest| + 1, fuel), fuel);
    }
  }

  ghost predicate ElseIfAt(c: Code, cond: Expr, body: Block, more: Alt, base: nat) {
    var i := base + Len(cond);
    var stop := i + 2 + LenBlock(body);
    && At(c, base, Code1(cond, base)) && At(c, i, [ELSEIF, stop + 1]) && At(c, i + 2, CodeBlock(body, i + 2))
    && At(c, stop, [STOP]) && At(c, stop + 1, CodeAlt(more, stop + 1)) && At(c, stop + 1 + LenAlt(more), [STOP])
  }

  lemma ElseIfPlaced(c: Code, cond: Expr, body: Block, more: Alt, base: nat)
    requires var a := ElseIf(cond, body, more); At(c, base, CodeAlt(a, base)) && At(c, base + LenAlt(a), [STOP])
    ensures ElseIfAt(c, cond, body, more, base)
  {
    hide Code1, CodeBlock, Len, LenBlock;
    var i := base + Len(cond);
    var stop := i + 2 + LenBlock(body);
    AtSplit(c, base, Code1(cond, base) + [ELSEIF, stop + 1] + CodeBlock(body, i + 2) + [STOP], CodeAlt(more, stop + 1));
    AtSplit4(c, base, Code1(cond, base), [ELSEIF, stop + 1], CodeBlock(body, i + 2), [STOP]);
  }

  lemma {:induction false} ElseIfGoes(c: Code, a: Alt, cond: Expr, body: Block, more: Alt, base: nat, l: seq<Var>,
      rest: seq<Var>, end: nat, ctx: seq<Loop>, scope: seq<bool>, fuel: nat)
    requires Ready(c, l, rest + [Num(end)], ctx, scope) && InLoops(c, rest, ctx) && Known(cond, c.nvars)
    requires a == ElseIf(cond, body, more) && ElseIfAt(c, cond, body, more, base)
    requires var i := base + Len(cond);
             SoundBlock(body, c.nvars, i + 2, scope) && SoundAlt(more, c.nvars, i + 2 + LenBlock(body) + 1, scope)
    ensures Does(c, On(base, l, rest + [Num(end)]), rest, ctx, ExecAlt(c, a, l, |l| + |rest| + 1, fuel), end, fuel)
    decreases a, 0
  {
    hide Step;
    var i, h := base + Len(cond), |l| + |rest| + 1;
    var stop := i + 2 + LenBlock(body);
    var v := EvalOn(c, cond, base, l, rest + [Num(end)]);
    if v.V? {
      if True(v.v) {
        BlockGoes(c, body, i + 2, l, rest + [Num(end)], ctx, scope, fuel);
      } else {
        AltGoes(c, more, stop + 1, l, rest, end, ctx, scope, fuel);
      }
    }
    ElseIfJoins(c, base, i, stop + 1, stop, end, l, rest, ctx, v, ExecBlock(c, body, l, h, fuel),
                ExecAlt(c, more, l, h, fuel), fuel);
  }

  // ---------------------------------------------------------------- for

  ghost predicate ForAt(c: Code, k: nat, lo: Expr, hi: Expr, body: Block, base: nat) {
    var j := base + Len(lo);
    var at := j + Len(hi);
    At(c, base, Code1(lo, base)) && At(c, j, Code1(hi, j)) && RangeAt(c, k, body, at)
  }

  ghost predicate RangeAt(c: Code, k: nat, body: Block, at: nat) {
    var stop := at + 3 + LenBlock(body);
    At(c, at, [FORRNG, k, stop + 1]) && At(c, at + 3, CodeBlock(body, at + 3)) && At(c, stop, [STOP])
  }

  lemma ForPlaced(c: Code, k: nat, lo: Expr, hi: Expr, body: Block, base: nat)
    requires At(c, base, CodeStmt(ForRange(k, lo, hi, body), base))
    ensures ForAt(c, k, lo, hi, body, base)
  {
    var j := base + Len(lo);
    var at := j + Len(hi);
    var end := at + 3 + LenBlock(body) + 1;
    AtSplit3(c, base, Code1(lo, base) + Code1(hi, j) + [FORRNG, k, end], CodeBlock(body, at + 3), [STOP]);
    AtSplit3(c, base, Code1(lo, base), Code1(hi, j), [FORRNG, k, end]);
  }

  lemma {:induction false} ForGoes(c: Code, s: Stmt, k: nat, lo: Expr, hi: Expr, body: Block, base: nat, l: seq<Var>,
      rest: seq<Var>, ctx: seq<Loop>, scope: seq<bool>, fuel: nat)
    requires Ready(c, l, rest, ctx, scope) && s == ForRange(k, lo, hi, body) && k < c.nvars
    requires Known(lo, c.nvars) && Known(hi, c.nvars) && ForAt(c, k, lo, hi, body, base)
    requires SoundBlock(body, c.nvars, base + Len(lo) + Len(hi) + 3, [true] + scope)
    ensures Does(c, On(base, l, rest), rest, ctx, Exec(c, s, l, |l| + |rest|, fuel),
                 base + Len(lo) + Len(hi) + 3 + LenBlock(body) + 1, fuel)
    decreases s, 0
  {
    hide ExecRange, ExecBlock, Eval, Code1, CodeBlock, Len, LenBlock, SoundBlock;
    var j, h := base + Len(lo), |l| + |rest|;
    var at := j + Len(hi);
    var a := EvalOn(c, lo, base, l, rest);
    var b := Eval(c, hi, l, h + 1);
    YieldsOn(c, base, l, rest, a, j);
    if a.V? { UpperGoes(c, k, hi, body, j, l, rest, a.v, ctx, scope, fuel); }
    ForJoins(c, base, j, at, l, rest, ctx, a, b,
             if a.V? && b.V? then ExecRange(c, k, a.v, b.v, body, l, h, fuel) else Strayed,
             at + 3 + LenBlock(body) + 1, fuel);
  }

  lemma {:induction false} UpperGoes(c: Code, k: nat, hi: Expr, body: Block, j: nat, l: seq<Var>, rest: seq<Var>, v: Var,
      ctx: seq<Loop>, scope: seq<bool>, fuel: nat)
    requires Ready(c, l, rest, ctx, scope) && k < c.nvars && |l| + |rest| < STACK_SIZE && Plain(v)
    requires Known(hi, c.nvars) && At(c, j, Code1(hi, j)) && RangeAt(c, k, body, j + Len(hi))
    requires SoundBlock(body, c.nvars, j + Len(hi) + 3, [true] + scope)
    ensures var h, at := |l| + |rest|, j + Len(hi);
            var b := Eval(c, hi, l, h + 1);
            && Yields(c, j, l, rest + [v], b, at)
            && (b.V? ==> Does(c, On(at, l, rest + [v] + [b.v]), rest, ctx, ExecRange(c, k, v, b.v, body, l, h, fuel),
                              at + 3 + LenBlock(body) + 1, fuel))
    decreases body, 3, fuel
  {
    var h, at := |l| + |rest|, j + Len(hi);
    var b := EvalOn(c, hi, j, l, rest + [v]);
    YieldsOn(c, j, l, rest + [v], b, at);
    if b.V? { RangeGoes(c, k, body, at, l, rest, v, b.v, ctx, scope, fuel); }
  }

  /** A range loop with its bounds on the stack. */
  lemma {:induction false} RangeGoes(c: Code, k: nat, body: Block, at: nat, l: seq<Var>, rest: seq<Var>,
      v: Var, w: Var, ctx: seq<Loop>, scope: seq<bool>, fuel: nat)
    requires Ready(c, l, rest, ctx, scope) && |l| + |rest| + 2 <= STACK_SIZE && k < c.nvars && Plain(v) && Plain(w)
    requires RangeAt(c, k, body, at) && SoundBlock(body, c.nvars, at + 3, [true] + scope)
    ensures Does(c, On(at, l, rest + [v] + [w]), rest, ctx,
                 ExecRange(c, k, v, w, body, l, |l| + |rest|, fuel), at + 3 + LenBlock(body) + 1, fuel)
    decreases body, 2, fuel
  {
    RangeStep(c, at, k, at + 3 + LenBlock(body) + 1, l, rest, v, w);
    if v.Num? && w.Num? && v.num <= w.num && |l| + |rest| + 3 <= STACK_SIZE {
      if fuel == 0 {
        LongNow(c, On(at, l, rest + [v] + [w]));
      } else {
        RangeTurn(c, k, body, at, l, rest, v, w, ctx, scope, fuel);
      }
    }
  }

  lemma {:induction false} RangeTurn(c: Code, k: nat, body: Block, at: nat, l: seq<Var>, rest: seq<Var>,
      v: Var, w: Var, ctx: seq<Loop>, scope: seq<bool>, fuel: nat)
    requires Ready(c, l, rest, ctx, scope) && |l| + |rest| + 3 <= STACK_SIZE && k < c.nvars && fuel > 0
    requires v.Num? && w.Num? && v.num <= w.num
    requires RangeAt(c, k, body, at) && SoundBlock(body, c.nvars, at + 3, [true] + scope)
    requires Step(c, On(at, l, rest + [v] + [w])) == On(at + 3, l[k := v], rest + [Num(v.num + 1)] + [w] + [Pc(at)])
    ensures Does(c, On(at, l, rest + [v] + [w]), rest, ctx,
                 ExecRange(c, k, v, w, body, l, |l| + |rest|, fuel), at + 3 + LenBlock(body) + 1, fuel)
    decreases body, 2, fuel, 0
  {
    hide ExecBlock, SoundBlock, LenBlock, CodeBlock, Step;
    var s, n, l1 := On(at, l, rest + [v] + [w]), Num(v.num + 1), l[k := v];
    var r, stop := rest + [n] + [w], at + 3 + LenBlock(body);
    var m := Loop(RangeLoop, at, |rest| + 2, |rest|, stop + 1);
    PlainPut(l, k, v);
    RangeEnters(c, l1, rest, n, w, at, k, stop + 1, ctx, scope);
    BlockGoes(c, body, at + 3, l1, r + [Pc(at)], [m] + ctx, [true] + scope, fuel);
    var o := ExecBlock(c, body, l1, |l| + |rest| + 3, fuel);
    var q := Strayed;
    if AfterBody(o).Ok? {
      var l2 := AfterBody(o).value;
      RangeGoes(c, k, body, at, l2, rest, n, w, ctx, scope, fuel - 1);
      q := ExecRange(c, k, n, w, body, l2, |l| + |rest|, fuel - 1);
    }
    GoesSelf(c, Step(c, s));
    TurnJoins(c, s, Step(c, s), rest, r, at, ctx, m, o, stop, q, fuel);
  }

  lemma RangeEnters(c: Code, l: seq<Var>, rest: seq<Var>, n: Var, w: Var, at: nat, k: nat, end: nat, ctx: seq<Loop>,
      scope: seq<bool>)
    requires Ready(c, l, rest, ctx, scope) && |l| + |rest| + 3 <= STACK_SIZE && !IsAddr(n) && !IsAddr(w)
    requires At(c, at, [FORRNG, k, end])
    ensures Ready(c, l, rest + [n] + [w] + [Pc(at)], [Loop(RangeLoop, at, |rest| + 2, |rest|, end)] + ctx, [true] + scope)
  {
    var r, m := rest + [n] + [w], Loop(RangeLoop, at, |rest| + 2, |rest|, end);
    AtWord(c, at, [FORRNG, k, end]);
    InLoopsOver(c, rest, ctx, n);
    InLoopsOver(c, rest + [n], ctx, w);
    assert (r + [Pc(at)])[..m.pos] == r && ([m] + ctx)[1..] == ctx;
    ScopedIn(c, ctx, scope, m, true);
  }

  // ---------------------------------------------------------------- while

  ghost predicate WhileAt(c: Code, cond: Expr, body: Block, base: nat, end: nat) {
    var i := base + 1 + Len(cond);
    && At(c, base, [PUSHPC]) && At(c, base + 1, Code1(cond, base + 1)) && At(c, i, [WHILE, end])
    && At(c, i + 2, CodeBlock(body, i + 2)) && At(c, i + 2 + LenBlock(body), [STOP]) && end == i + 2 + LenBlock(body) + 1
  }

  lemma WhilePlaced(c: Code, cond: Expr, body: Block, base: nat)
    requires At(c, base, CodeStmt(While(cond, body), base))
    ensures WhileAt(c, cond, body, base, base + 1 + Len(cond) + 2 + LenBlock(body) + 1)
  {
    hide Code1, CodeBlock, Len, LenBlock;
    var i := base + 1 + Len(cond);
    var end := i + 2 + LenBlock(body) + 1;
    AtSplit3(c, base, [PUSHPC] + Code1(cond, base + 1) + [WHILE, end], CodeBlock(body, i + 2), [STOP]);
    AtSplit3(c, base, [PUSHPC], Code1(cond, base + 1), [WHILE, end]);
  }

  lemma {:induction false} WhileGoes(c: Code, cond: Expr, body: Block, base: nat, end: nat, l: seq<Var>, rest: seq<Var>,
      ctx: seq<Loop>, scope: seq<bool>, fuel: nat)
    requires Ready(c, l, rest, ctx, scope) && Known(cond, c.nvars) && WhileAt(c, cond, body, base, end)
    requires SoundBlock(body, c.nvars, base + 1 + Len(cond) + 2, [BreakFinds(cond, base, end)] + scope)
    ensures Does(c, On(base, l, rest), rest, ctx, ExecWhile(c, cond, body, l, |l| + |rest|, fuel), end, fuel)
    decreases body, 2, fuel
  {
    var i, h := base + 1 + Len(cond), |l| + |rest|;
    var a := Eval(c, cond, l, h + 1);
    var o := ExecWhile(c, cond, body, l, h, fuel);
    if h < STACK_SIZE {
      a := EvalOn(c, cond, base + 1, l, rest + [Pc(base)]);
      if a.V? && True(a.v) && Goes(c, Step(c, On(base, l, rest)), On(i + 2, l, rest + [Pc(base)])) {
        WhileTurn(c, cond, body, base, end, l, rest, ctx, scope, fuel);
      }
    }
    WhileJoins(c, base, i, end, l, rest, ctx, a, o, fuel);
  }

  /** One turn of a while loop whose condition holds. */
  lemma {:induction false} WhileTurn(c: Code, cond: Expr, body: Block, base: nat, end: nat, l: seq<Var>, rest: seq<Var>,
      ctx: seq<Loop>, scope: seq<bool>, fuel: nat)
    requires Ready(c, l, rest, ctx, scope) && Known(cond, c.nvars) && |l| + |rest| < STACK_SIZE
    requires WhileAt(c, cond, body, base, end)
    requires SoundBlock(body, c.nvars, base + 1 + Len(cond) + 2, [BreakFinds(cond, base, end)] + scope)
    requires var v := Eval(c, cond, l, |l| + |rest| + 1); v.V? && True(v.v)
    requires Goes(c, Step(c, On(base, l, rest)), On(base + 1 + Len(cond) + 2, l, rest + [Pc(base)]))
    ensures Does(c, On(base, l, rest), rest, ctx, ExecWhile(c, cond, body, l, |l| + |rest|, fuel), end, fuel)
    decreases body, 2, fuel, 0
  {
    hide Step, Goes, BreakFinds;
    var s, r1, i := On(base, l, rest), rest + [Pc(base)], base + 1 + Len(cond) + 2;
    if fuel == 0 {
      LongNow(c, s);
    } else {
      var m, can := Loop(WhileLoop, base, |rest|, |rest|, end), BreakFinds(cond, base, end);
      WhileEnters(c, cond, base, end, l, rest, ctx, scope);
      BlockGoes(c, body, i, l, r1, [m] + ctx, [can] + scope, fuel);
      var o := ExecBlock(c, body, l, |l| + |rest| + 1, fuel);
      var q := Strayed;
      if AfterBody(o).Ok? {
        var l2 := AfterBody(o).value;
        WhileGoes(c, cond, body, base, end, l2, rest, ctx, scope, fuel - 1);
        q := ExecWhile(c, cond, body, l2, |l| + |rest|, fuel - 1);
      }
      TurnJoins(c, s, On(i, l, r1), rest, rest, base, ctx, m, o, end - 1, q, fuel);
    }
  }

  lemma WhileEnters(c: Code, cond: Expr, base: nat, end: nat, l: seq<Var>, rest: seq<Var>, ctx: seq<Loop>, scope: seq<bool>)
    requires Ready(c, l, rest, ctx, scope) && |l| + |rest| < STACK_SIZE
    requires At(c, base, [PUSHPC]) && At(c, base + 1, Code1(cond, base + 1)) && At(c, base + 1 + Len(cond), [WHILE, end])
    ensures Ready(c, l, rest + [Pc(base)], [Loop(WhileLoop, base, |rest|, |rest|, end)] + ctx,
                  [BreakFinds(cond, base, end)] + scope)
  {
    var m := Loop(WhileLoop, base, |rest|, |rest|, end);
    AtWord(c, base, [PUSHPC]);
    assert (rest + [Pc(base)])[..m.pos] == rest && ([m] + ctx)[1..] == ctx;
    if BreakFinds(cond, base, end) { FoundEnd(c, cond, base, end); }
    ScopedIn(c, ctx, scope, m, BreakFinds(cond, base, end));
  }

  lemma FoundEnd(c: Code, cond: Expr, base: nat, end: nat)
    requires At(c, base, [PUSHPC]) && At(c, base + 1, Code1(cond, base + 1)) && At(c, base + 1 + Len(cond), [WHILE, end])
    requires BreakFinds(cond, base, end)
    ensures base < |c.words| && ScanWhile(c.words, base) + 1 < |c.words| && c.words[ScanWhile(c.words, base) + 1] == end
  {
    AtJoin3(c, base, [PUSHPC], Code1(cond, base + 1), [WHILE, end]);
    FindsEnd(c, base, [PUSHPC] + Code1(cond, base + 1) + [WHILE, end], end);
  }

  lemma FindsEnd(c: Code, base: nat, w: seq<int>, end: nat)
    requires At(c, base, w) && ScanWhile(w, 0) + 1 < |w| && w[ScanWhile(w, 0) + 1] == end
    ensures base < |c.words| && ScanWhile(c.words, base) + 1 < |c.words| && c.words[ScanWhile(c.words, base) + 1] == end
  {
    AtWord(c, base, w);
    ScanAt(c, base, w, 0);
    assert WordAt(c, base, w, ScanWhile(w, 0) + 1);
  }

  lemma AtJoin3(c: Code, base: nat, u: seq<int>, v: seq<int>, w: seq<int>)
    requires At(c, base, u) && At(c, base + |u|, v) && At(c, base + |u| + |v|, w)
    ensures At(c, base, u + v + w)
  {
    AtJoin(c, base, u, v);
    AtJoin(c, base, u + v, w);
  }

  lemma {:induction false} ScanAt(c: Code, base: nat, w: seq<int>, i: nat)
    requires At(c, base, w) && i < |w| && base + |w| <= |c.words| && ScanWhile(w, i) < |w|
    ensures ScanWhile(c.words, base + i) == base + ScanWhile(w, i)
    decreases |w| - i
  {
    assert WordAt(c, base, w, i);
    if w[i] != WHILE { ScanAt(c, base, w, i + 1); }
  }

  // ---------------------------------------------------------------- do

  ghost predicate DoAt(c: Code, body: Block, cond: Expr, i: nat) {
    var at := i + LenBlock(body);
    At(c, i, CodeBlock(body, i)) && At(c, at, Code1(cond, at)) && At(c, at + Len(cond), [DOWHILE, i, at])
  }

  lemma DoPlaced(c: Code, body: Block, cond: Expr, base: nat)
    requires At(c, base, CodeStmt(DoWhile(body, cond), base))
    ensures At(c, base, [DO, base + 2 + LenBlock(body) + Len(cond)]) && DoAt(c, body, cond, base + 2)
  {
    var at := base + 2 + LenBlock(body);
    AtSplit4(c, base, [DO, at + Len(cond)], CodeBlock(body, base + 2), Code1(cond, at), [DOWHILE, base + 2, at]);
  }

  lemma {:induction false} DoGoes(c: Code, s: Stmt, body: Block, cond: Expr, base: nat, l: seq<Var>, rest: seq<Var>,
      ctx: seq<Loop>, scope: seq<bool>, fuel: nat)
    requires Ready(c, l, rest, ctx, scope) && s == DoWhile(body, cond) && Known(cond, c.nvars)
    requires SoundBlock(body, c.nvars, base + 2, [true] + scope)
    requires At(c, base, [DO, base + 2 + LenBlock(body) + Len(cond)]) && DoAt(c, body, cond, base + 2)
    ensures Does(c, On(base, l, rest), rest, ctx, Exec(c, s, l, |l| + |rest|, fuel),
                 base + 2 + LenBlock(body) + Len(cond) + 3, fuel)
    decreases s, 0
  {
    hide ExecDo, ExecBlock, Eval, Len, LenBlock, Code1, CodeBlock, SoundBlock;
    var dw := base + 2 + LenBlock(body) + Len(cond);
    PcStep(c, base, [DO, dw], l, rest, dw);
    if |l| + |rest| < STACK_SIZE {
      GoesStep(c, On(base, l, rest));
      DoTurns(c, body, cond, base + 2, l, rest, ctx, scope, fuel);
      DoesAfter(c, On(base, l, rest), On(base + 2, l, rest + [Pc(dw)]), rest, ctx,
                ExecDo(c, body, cond, l, |l| + |rest|, fuel), dw + 3, fuel);
    }
  }

  /** The turns of a do loop, from its body on. */
  lemma {:induction false} DoTurns(c: Code, body: Block, cond: Expr, i: nat, l: seq<Var>, rest: seq<Var>,
      ctx: seq<Loop>, scope: seq<bool>, fuel: nat)
    requires Ready(c, l, rest, ctx, scope) && Known(cond, c.nvars) && |l| + |rest| < STACK_SIZE
    requires SoundBlock(body, c.nvars, i, [true] + scope) && DoAt(c, body, cond, i)
    ensures var dw := i + LenBlock(body) + Len(cond);
            Does(c, On(i, l, rest + [Pc(dw)]), rest, ctx, ExecDo(c, body, cond, l, |l| + |rest|, fuel), dw + 3, fuel)
    decreases body, 2, fuel
  {
    hide ExecBlock, Eval, Code1, CodeBlock, Len, LenBlock, SoundBlock, Known;
    var at := i + LenBlock(body);
    var dw := at + Len(cond);
    var r1, m := rest + [Pc(dw)], Loop(DoLoop, dw, |rest|, |rest|, dw + 3);
    if fuel == 0 {
      LongNow(c, On(i, l, r1));
    } else {
      DoEnters(c, l, rest, dw, i, at, ctx, scope);
      BlockGoes(c, body, i, l, r1, [m] + ctx, [true] + scope, fuel);
      var o := ExecBlock(c, body, l, |l| + |rest| + 1, fuel);
      var a, q := X(0), Strayed;
      if AfterBody(o).Ok? {
        var l2 := AfterBody(o).value;
        DoGood(c, On(i, l, r1), r1, [m] + ctx, o, at, fuel);
        a := EvalOn(c, cond, at, l2, r1);
        if a.V? && True(a.v) {
          DoTurns(c, body, cond, i, l2, rest, ctx, scope, fuel - 1);
          q := ExecDo(c, body, cond, l2, |l| + |rest|, fuel - 1);
        }
      }
      DoJoins(c, i, at, dw, l, rest, ctx, o, a, q, fuel);
    }
  }

  lemma DoGood(c: Code, s: State, rest: seq<Var>, ctx: seq<Loop>, o: Outcome, end: nat, fuel: nat)
    requires Does(c, s, rest, ctx, o, end, fuel) && AfterBody(o).Ok?
    ensures Good(c, AfterBody(o).value)
  {
  }

  lemma DoEnters(c: Code, l: seq<Var>, rest: seq<Var>, dw: nat, i: nat, at: nat, ctx: seq<Loop>, scope: seq<bool>)
    requires Ready(c, l, rest, ctx, scope) && |l| + |rest| < STACK_SIZE && At(c, dw, [DOWHILE, i, at])
    ensures Ready(c, l, rest + [Pc(dw)], [Loop(DoLoop, dw, |rest|, |rest|, dw + 3)] + ctx, [true] + scope)
  {
    var m := Loop(DoLoop, dw, |rest|, |rest|, dw + 3);
    AtWord(c, dw, [DOWHILE, i, at]);
    assert (rest + [Pc(dw)])[..m.pos] == rest && ([m] + ctx)[1..] == ctx;
    ScopedIn(c, ctx, scope, m, true);
  }
}

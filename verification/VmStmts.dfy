/** Running compiled statements has exactly the effect of the structured statements, whatever loops they
    nest, and leaves the stack as high as it was. */
module VmStmts {
  import opened Wrappers
  import opened Values
  import opened Vm
  import opened VmLang
  import opened VmProof

  // ---------------------------------------------------------------- the loops around a statement

  datatype Kind = RangeLoop | WhileLoop | DoLoop

  /** A loop being run: the address its program counter holds, where in the stack above the locals that
      counter is, how high the stack was before the loop, and where the loop ends. */
  datatype Loop = Loop(kind: Kind, addr: nat, pos: nat, low: nat, end: nat)

  ghost predicate IsAddr(v: Var) { v.Pc? && v.pc >= 0 }

  /** The words at the address of a loop are such that continue finds its way, and break too but for while. */
  ghost predicate Marked(c: Code, l: Loop) {
    match l.kind
    case RangeLoop => l.addr + 2 < |c.words| && c.words[l.addr] == FORRNG && c.words[l.addr + 2] == l.end && l.pos == l.low + 2
    case WhileLoop => l.addr < |c.words| && c.words[l.addr] == PUSHPC && l.pos == l.low
    case DoLoop =>
      l.addr + 2 < |c.words| && c.words[l.addr] == DOWHILE && c.words[l.addr + 2] >= 0 && l.end == l.addr + 3 && l.pos == l.low
  }

  /** A break finds the end of the loop: in a while loop it looks for the first word WHILE. */
  ghost predicate Leavable(c: Code, l: Loop) {
    l.kind.WhileLoop? ==>
      && l.addr < |c.words| && ScanWhile(c.words, l.addr) + 1 < |c.words|
      && c.words[ScanWhile(c.words, l.addr) + 1] == l.end
  }

  /** scope says which of the loops around may be left by a break. */
  ghost predicate Scoped(c: Code, ctx: seq<Loop>, scope: seq<bool>) {
    |ctx| == |scope| && forall i {:trigger ScopeAt(c, ctx, scope, i)} :: ScopeAt(c, ctx, scope, i)
  }

  ghost predicate ScopeAt(c: Code, ctx: seq<Loop>, scope: seq<bool>, i: int) {
    0 <= i < |scope| && i < |ctx| && scope[i] ==> Leavable(c, ctx[i])
  }

  lemma ScopedIn(c: Code, ctx: seq<Loop>, scope: seq<bool>, m: Loop, can: bool)
    requires Scoped(c, ctx, scope) && (can ==> Leavable(c, m))
    ensures Scoped(c, [m] + ctx, [can] + scope)
  {
    forall i ensures ScopeAt(c, [m] + ctx, [can] + scope, i) { assert ScopeAt(c, ctx, scope, i - 1); }
  }

  /** rest is the stack above the locals, inside the loops ctx, the innermost first. */
  ghost predicate InLoops(c: Code, rest: seq<Var>, ctx: seq<Loop>)
    decreases |ctx|
  {
    ctx == [] ||
    (&& ctx[0].pos < |rest| && rest[ctx[0].pos] == Pc(ctx[0].addr) && ctx[0].low <= ctx[0].pos
     && (forall j :: ctx[0].pos < j < |rest| ==> !IsAddr(rest[j]))
     && Marked(c, ctx[0]) && InLoops(c, rest[..ctx[0].pos], ctx[1..]))
  }

  lemma {:induction false} TopAddr(rest: seq<Var>, pos: nat)
    requires pos < |rest| && IsAddr(rest[pos]) && forall j :: pos < j < |rest| ==> !IsAddr(rest[j])
    ensures Unwound(rest) == Some((rest[pos].pc, rest[..pos]))
    decreases |rest|
  {
    if pos < |rest| - 1 {
      TopAddr(rest[..|rest| - 1], pos);
      assert rest[..|rest| - 1][..pos] == rest[..pos];
    } else {
      assert rest[..|rest| - 1] == rest[..pos];
    }
  }

  /** Unwinding level loops comes to the program counter of the level-th, and leaves what is below it. */
  lemma {:induction false} UnwindsTo(c: Code, l: seq<Var>, rest: seq<Var>, ctx: seq<Loop>, level: nat)
    requires InLoops(c, rest, ctx) && 1 <= level <= |ctx|
    ensures ctx[level - 1].pos < |rest|
    ensures UnwoundTo(l + rest, level) == Some((ctx[level - 1].addr, l + rest[..ctx[level - 1].pos]))
    decreases level
  {
    var pos := ctx[0].pos;
    TopAddr(l + rest, |l| + pos);
    assert (l + rest)[..|l| + pos] == l + rest[..pos];
    if level > 1 {
      UnwindsTo(c, l, rest[..pos], ctx[1..], level - 1);
      assert rest[..pos][..ctx[level - 1].pos] == rest[..ctx[level - 1].pos];
    }
  }

  lemma {:induction false} LoopAt(c: Code, rest: seq<Var>, ctx: seq<Loop>, i: nat)
    requires InLoops(c, rest, ctx) && i < |ctx|
    ensures ctx[i].low <= ctx[i].pos < |rest| && rest[ctx[i].pos] == Pc(ctx[i].addr) && Marked(c, ctx[i])
    decreases i
  {
    if i > 0 { LoopAt(c, rest[..ctx[0].pos], ctx[1..], i - 1); }
  }

  /** One more value that is no address changes nothing for the loops around. */
  lemma InLoopsOver(c: Code, rest: seq<Var>, ctx: seq<Loop>, v: Var)
    requires InLoops(c, rest, ctx) && !IsAddr(v)
    ensures InLoops(c, rest + [v], ctx)
  {
    if ctx != [] { assert (rest + [v])[..ctx[0].pos] == rest[..ctx[0].pos]; }
  }

  // ---------------------------------------------------------------- outcomes

  /** The machine is still running after more than k steps. */
  ghost predicate Long(c: Code, s: State, k: nat) {
    exists tr: seq<State> {:trigger Trace(c, tr)} :: Trace(c, tr) && tr[0] == s && |tr| > k && tr[|tr| - 1].status.Running?
  }

  ghost predicate Stops(c: Code, s: State, v: Var) {
    exists s' {:trigger Goes(c, s, s')} :: Goes(c, s, s') && s'.status == Stopped(v)
  }

  lemma LongAfter(c: Code, s: State, s1: State, k: nat)
    requires Goes(c, s, s1) && Long(c, s1, k)
    ensures Long(c, s, k)
  {
    var t: seq<State> :| Trace(c, t) && t[0] == s && t[|t| - 1] == s1;
    var u: seq<State> :| Trace(c, u) && u[0] == s1 && |u| > k && u[|u| - 1].status.Running?;
    TraceJoin(c, t, u);
    assert Trace(c, t + u[1..]);
  }

  lemma LongStep(c: Code, s: State, s1: State, k: nat)
    requires Goes(c, Step(c, s), s1) && Long(c, s1, k)
    ensures Long(c, s, k + 1)
  {
    LongAfter(c, Step(c, s), s1, k);
    var u: seq<State> :| Trace(c, u) && u[0] == Step(c, s) && |u| > k && u[|u| - 1].status.Running?;
    var w := [s, Step(c, s)];
    assert Trace(c, w);
    TraceJoin(c, w, u);
    assert Trace(c, w + u[1..]);
  }

  lemma LongNow(c: Code, s: State)
    requires s.status.Running?
    ensures Long(c, s, 0)
  {
    assert Trace(c, [s]);
  }

  lemma StopsAfter(c: Code, s: State, s1: State, v: Var)
    requires Goes(c, s, s1) && Stops(c, s1, v)
    ensures Stops(c, s, v)
  {
    var s2 :| Goes(c, s1, s2) && s2.status == Stopped(v);
    GoesTrans(c, s, s1, s2);
  }

  function On(pc: int, l: seq<Var>, rest: seq<Var>): State { State(pc, l + rest, Running) }

  /** Where continue goes. */
  function Again(c: Code, l: Loop): int
    requires Marked(c, l)
  {
    if l.kind.DoLoop? then c.words[l.addr + 2] else l.addr
  }

  ghost predicate Broken(c: Code, s: State, rest: seq<Var>, ctx: seq<Loop>, level: int, l: seq<Var>) {
    && 1 <= level <= |ctx| && ctx[level - 1].low <= |rest|
    && Goes(c, s, On(ctx[level - 1].end, l, rest[..ctx[level - 1].low]))
  }

  /** After a continue the program counter of a do loop is back on the stack; the other loops push it. */
  ghost predicate Continuing(c: Code, s: State, rest: seq<Var>, ctx: seq<Loop>, level: int, l: seq<Var>) {
    && 1 <= level <= |ctx|
    && var m := ctx[level - 1];
       && Marked(c, m) && m.pos < |rest|
       && Goes(c, s, On(Again(c, m), l, if m.kind.DoLoop? then rest[..m.pos + 1] else rest[..m.pos]))
  }

  ghost predicate Good(c: Code, l: seq<Var>) { |l| == c.nvars && PlainAll(l) }

  /** What running from s comes to, when the statements' outcome is o and they end at end. */
  ghost predicate Does(c: Code, s: State, rest: seq<Var>, ctx: seq<Loop>, o: Outcome, end: int, fuel: nat) {
    match o
    case Normal(l) => Good(c, l) && Goes(c, s, On(end, l, rest))
    case Broke(level, l) => Good(c, l) && Broken(c, s, rest, ctx, level, l)
    case Continued(level, l) => Good(c, l) && Continuing(c, s, rest, ctx, level, l)
    case Returned(v) => Stops(c, s, v)
    case Failed(e) => Fails(c, s, e)
    case Timeout => Long(c, s, fuel)
    case Strayed => Fails(c, s, E_INTERNAL)
  }

  lemma DoesAfter(c: Code, s: State, s1: State, rest: seq<Var>, ctx: seq<Loop>, o: Outcome, end: int, fuel: nat)
    requires Goes(c, s, s1) && Does(c, s1, rest, ctx, o, end, fuel)
    ensures Does(c, s, rest, ctx, o, end, fuel)
  {
    match o {
      case Normal(l) => GoesTrans(c, s, s1, On(end, l, rest));
      case Broke(level, l) => GoesTrans(c, s, s1, On(ctx[level - 1].end, l, rest[..ctx[level - 1].low]));
      case Continued(level, l) =>
        var m := ctx[level - 1];
        GoesTrans(c, s, s1, On(Again(c, m), l, if m.kind.DoLoop? then rest[..m.pos + 1] else rest[..m.pos]));
      case Returned(v) => StopsAfter(c, s, s1, v);
      case Failed(e) => FailsTrans(c, s, s1, e);
      case Timeout => LongAfter(c, s, s1, fuel);
      case Strayed => FailsTrans(c, s, s1, E_INTERNAL);
    }
  }

  // ---------------------------------------------------------------- break and continue

  lemma BreakGoes(c: Code, base: nat, level: int, l: seq<Var>, rest: seq<Var>, ctx: seq<Loop>, fuel: nat)
    requires Good(c, l) && At(c, base, [BREAK, level]) && InLoops(c, rest, ctx)
    requires 1 <= level <= |ctx| && Leavable(c, ctx[level - 1])
    ensures Does(c, On(base, l, rest), rest, ctx, Broke(level, l), base + 2, fuel)
  {
    UnwindsTo(c, l, rest, ctx, level);
    LoopAt(c, rest, ctx, level - 1);
    var m := ctx[level - 1];
    var st := l + rest[..m.pos];
    if m.kind.RangeLoop? { assert Drop(st, 2) == l + rest[..m.low]; }
    OneStep(c, base, [BREAK, level], l + rest, On(m.end, l, rest[..m.low]));
  }

  lemma ContinueGoes(c: Code, base: nat, level: int, l: seq<Var>, rest: seq<Var>, ctx: seq<Loop>, fuel: nat)
    requires Good(c, l) && At(c, base, [CONTINUE, level]) && InLoops(c, rest, ctx) && 1 <= level <= |ctx|
    requires |l + rest| <= STACK_SIZE
    ensures Does(c, On(base, l, rest), rest, ctx, Continued(level, l), base + 2, fuel)
  {
    UnwindsTo(c, l, rest, ctx, level);
    LoopAt(c, rest, ctx, level - 1);
    var m := ctx[level - 1];
    assert l + rest[..m.pos] + [Pc(m.addr)] == l + rest[..m.pos + 1];
    OneStep(c, base, [CONTINUE, level], l + rest,
            On(Again(c, m), l, if m.kind.DoLoop? then rest[..m.pos + 1] else rest[..m.pos]));
  }

  // ---------------------------------------------------------------- single instructions

  lemma Over(l: seq<Var>, rest: seq<Var>, v: Var)
    ensures (l + rest) + [v] == l + (rest + [v]) && Drop(l + (rest + [v]), 1) == l + rest
  {
  }

  /** Running an expression from base comes to a above rest at i. */
  ghost predicate Yields(c: Code, base: nat, l: seq<Var>, rest: seq<Var>, a: Res, i: nat) {
    Leaves(c, State(base, l + rest, Running), l + rest, a, i)
  }

  lemma YieldsOn(c: Code, base: nat, l: seq<Var>, rest: seq<Var>, a: Res, i: nat)
    requires Yields(c, base, l, rest, a, i)
    ensures match a
            case V(v) => |l| + |rest| < STACK_SIZE && Plain(v) && Goes(c, On(base, l, rest), On(i, l, rest + [v]))
            case X(x) => Fails(c, On(base, l, rest), x)
  {
    if a.V? { Over(l, rest, a.v); }
  }

  lemma EvalOn(c: Code, e: Expr, base: nat, l: seq<Var>, rest: seq<Var>) returns (a: Res)
    requires Proper(c) && Good(c, l) && |l| + |rest| <= STACK_SIZE && Known(e, c.nvars) && At(c, base, Code1(e, base))
    ensures a == Eval(c, e, l, |l| + |rest|) && Yields(c, base, l, rest, a, base + Len(e))
  {
    BasedOn(c, l, rest);
    a := EvalWith(c, e, base, l + rest, l, |l| + |rest|, base + Len(e));
  }

  lemma BasedOn(c: Code, l: seq<Var>, rest: seq<Var>)
    requires Good(c, l) && |l| + |rest| <= STACK_SIZE
    ensures Based(c, l + rest) && Locals(c, l + rest) == l && |l + rest| == |l| + |rest|
  {
    assert (l + rest)[..|l|] == l;
  }

  lemma EvalWith(c: Code, e: Expr, base: nat, st: seq<Var>, l: seq<Var>, h: nat, end: nat) returns (a: Res)
    requires Proper(c) && Based(c, st) && Known(e, c.nvars) && At(c, base, Code1(e, base))
    requires l == Locals(c, st) && h == |st| && end == base + Len(e)
    ensures a == Eval(c, e, l, h) && Leaves(c, State(base, st, Running), st, a, end)
  {
    a := EvalGoes(c, e, base, st);
  }

  lemma PopStep(c: Code, at: nat, l: seq<Var>, rest: seq<Var>, v: Var)
    requires At(c, at, [POP])
    ensures Goes(c, On(at, l, rest + [v]), On(at + 1, l, rest))
  {
    Over(l, rest, v);
    OneStep(c, at, [POP], l + (rest + [v]), On(at + 1, l, rest));
  }

  lemma AssignStep(c: Code, at: nat, k: nat, l: seq<Var>, rest: seq<Var>, v: Var)
    requires At(c, at, [ASGNLVAR, k]) && k < |l|
    ensures Goes(c, On(at, l, rest + [v]), On(at + 2, l[k := v], rest))
  {
    Over(l, rest, v);
    assert (l + rest)[k := v] == l[k := v] + rest;
    OneStep(c, at, [ASGNLVAR, k], l + (rest + [v]), On(at + 2, l[k := v], rest));
  }

  lemma ReturnStep(c: Code, at: nat, l: seq<Var>, rest: seq<Var>, v: Var)
    requires At(c, at, [T_RETURN])
    ensures Stops(c, On(at, l, rest + [v]), v)
  {
    Over(l, rest, v);
    OneStep(c, at, [T_RETURN], l + (rest + [v]), State(at + 1, l + rest, Stopped(v)));
  }

  lemma StopStep(c: Code, at: nat, l: seq<Var>, rest: seq<Var>, v: Var, n: nat)
    requires At(c, at, [STOP]) && (v == Num(n) || v == Pc(n))
    ensures Goes(c, On(at, l, rest + [v]), On(n, l, rest))
  {
    Over(l, rest, v);
    OneStep(c, at, [STOP], l + (rest + [v]), On(n, l, rest));
  }

  lemma IfStep(c: Code, at: nat, next: nat, end: nat, l: seq<Var>, rest: seq<Var>, v: Var)
    requires At(c, at, [IF, next, end]) && next > 0 && |l| + |rest| < STACK_SIZE
    ensures Goes(c, On(at, l, rest + [v]), On(if True(v) then at + 3 else next, l, rest + [Num(end)]))
  {
    Over(l, rest, v);
    Over(l, rest, Num(end));
    OneStep(c, at, [IF, next, end], l + (rest + [v]), On(if True(v) then at + 3 else next, l, rest + [Num(end)]));
  }

  lemma ElseIfStep(c: Code, at: nat, next: nat, l: seq<Var>, rest: seq<Var>, v: Var)
    requires At(c, at, [ELSEIF, next])
    ensures Goes(c, On(at, l, rest + [v]), On(if True(v) then at + 2 else next, l, rest))
  {
    Over(l, rest, v);
    OneStep(c, at, [ELSEIF, next], l + (rest + [v]), On(if True(v) then at + 2 else next, l, rest));
  }

  lemma PcStep(c: Code, at: nat, w: seq<int>, l: seq<Var>, rest: seq<Var>, n: int)
    requires At(c, at, w) && ((w == [PUSHPC] && n == at) || w == [DO, n])
    ensures if |l| + |rest| < STACK_SIZE
            then Step(c, On(at, l, rest)) == On(at + |w|, l, rest + [Pc(n)])
            else Fails(c, On(at, l, rest), E_STACKOVR)
  {
    AtWord(c, at, w);
    Over(l, rest, Pc(n));
    if |l| + |rest| >= STACK_SIZE { FailsStep(c, On(at, l, rest), E_STACKOVR); }
  }

  lemma WhileStep(c: Code, at: nat, end: nat, l: seq<Var>, rest: seq<Var>, p: Var, v: Var)
    requires At(c, at, [WHILE, end])
    ensures Goes(c, On(at, l, rest + [p] + [v]), if True(v) then On(at + 2, l, rest + [p]) else On(end, l, rest))
  {
    Over(l, rest + [p], v);
    Over(l, rest, p);
    OneStep(c, at, [WHILE, end], l + (rest + [p] + [v]), if True(v) then On(at + 2, l, rest + [p]) else On(end, l, rest));
  }

  lemma DoWhileStep(c: Code, at: nat, body: nat, cond: nat, l: seq<Var>, rest: seq<Var>, p: Var, v: Var)
    requires At(c, at, [DOWHILE, body, cond])
    ensures Step(c, On(at, l, rest + [p] + [v])) == if True(v) then On(body, l, rest + [p]) else On(at + 3, l, rest)
  {
    AtWord(c, at, [DOWHILE, body, cond]);
    Over(l, rest + [p], v);
    Over(l, rest, p);
  }

  lemma RangeStep(c: Code, at: nat, k: nat, end: nat, l: seq<Var>, rest: seq<Var>, v: Var, w: Var)
    requires At(c, at, [FORRNG, k, end]) && k < |l| && |l| + |rest| + 2 <= STACK_SIZE
    ensures var s := On(at, l, rest + [v] + [w]);
            if !v.Num? || !w.Num? then Fails(c, s, if E_TYPE in c.ignored then E_INTERNAL else E_TYPE)
            else if v.num > w.num then Goes(c, s, On(end, l, rest))
            else if |l| + |rest| + 3 > STACK_SIZE then Fails(c, s, E_STACKOVR)
            else Step(c, s) == On(at + 3, l[k := v], rest + [Num(v.num + 1)] + [w] + [Pc(at)])
  {
    var s, st := On(at, l, rest + [v] + [w]), l + rest;
    AtWord(c, at, [FORRNG, k, end]);
    Over(l, rest + [v], w);
    Over(l, rest, v);
    GoesStep(c, s);
    assert Step(c, s) == PerformTwo(c, State(at + 1, s.stack, Running), FORRNG, k, end, v, w, st);
    if !v.Num? || !w.Num? {
      if E_TYPE !in c.ignored {
        FailsStep(c, s, E_TYPE);
      } else {
        assert WordAt(c, at, [FORRNG, k, end], 1);
        FailsStep(c, Step(c, s), E_INTERNAL);
        FailsTrans(c, s, Step(c, s), E_INTERNAL);
      }
    } else if v.num <= w.num {
      var n := Num(v.num + 1);
      assert st[k := v] == l[k := v] + rest;
      Over(l[k := v], rest, n);
      Over(l[k := v], rest + [n], w);
      Over(l[k := v], rest + [n] + [w], Pc(at));
      if |l| + |rest| + 3 > STACK_SIZE { FailsStep(c, s, E_STACKOVR); }
    }
  }

  // ---------------------------------------------------------------- what statements must be like

  /** The first word WHILE from the start of a while loop on is that of the loop itself, or at least the
      word after it is where the loop ends. */
  predicate BreakFinds(cond: Expr, base: nat, end: nat) {
    var w := [PUSHPC] + Code1(cond, base + 1) + [WHILE, end];
    var k := ScanWhile(w, 0);
    k + 1 < |w| && w[k + 1] == end
  }

  /** Locals exist, break and continue name a loop around them, and a break one that it can leave. */
  predicate Sound(s: Stmt, nvars: nat, base: nat, scope: seq<bool>)
    decreases s
  {
    match s
    case ExprS(e) => Known(e, nvars)
    case Assign(k, e) => k < nvars && Known(e, nvars)
    case Return(e) => Known(e, nvars)
    case If(cond, body, alt) =>
      var i := base + Len(cond);
      Known(cond, nvars) && SoundBlock(body, nvars, i + 3, scope)
      && SoundAlt(alt, nvars, i + 3 + LenBlock(body) + 1, scope)
    case ForRange(k, lo, hi, body) =>
      k < nvars && Known(lo, nvars) && Known(hi, nvars)
      && SoundBlock(body, nvars, base + Len(lo) + Len(hi) + 3, [true] + scope)
    case While(cond, body) =>
      Known(cond, nvars) && SoundBlock(body, nvars, base + 1 + Len(cond) + 2, [BreakFinds(cond, base, base + LenStmt(s))] + scope)
    case DoWhile(body, cond) => Known(cond, nvars) && SoundBlock(body, nvars, base + 2, [true] + scope)
    case BreakS(level) => 1 <= level <= |scope| && scope[level - 1]
    case ContinueS(level) => 1 <= level <= |scope|
  }

  predicate SoundBlock(b: Block, nvars: nat, base: nat, scope: seq<bool>)
    decreases b
  {
    match b
    case Nil => true
    case Seq(s, rest) => Sound(s, nvars, base, scope) && SoundBlock(rest, nvars, base + LenStmt(s), scope)
  }

  predicate SoundAlt(a: Alt, nvars: nat, base: nat, scope: seq<bool>)
    decreases a
  {
    match a
    case NoAlt => true
    case ElseIf(cond, body, rest) =>
      var i := base + Len(cond);
      Known(cond, nvars) && SoundBlock(body, nvars, i + 2, scope) && SoundAlt(rest, nvars, i + 2 + LenBlock(body) + 1, scope)
    case Else(body) => SoundBlock(body, nvars, base + 1, scope)
  }

  // ---------------------------------------------------------------- leaving an if and a loop

  /** The part of an if that was run has ended: its STOP takes the machine to the end of the if. */
  lemma IfLeft(c: Code, s: State, rest: seq<Var>, ctx: seq<Loop>, o: Outcome, stop: nat, end: nat, fuel: nat)
    requires Does(c, s, rest + [Num(end)], ctx, o, stop, fuel) && At(c, stop, [STOP]) && InLoops(c, rest, ctx)
    ensures Does(c, s, rest, ctx, o, end, fuel)
  {
    var r1 := rest + [Num(end)];
    match o {
      case Normal(l) =>
        StopStep(c, stop, l, rest, Num(end), end);
        GoesTrans(c, s, On(stop, l, r1), On(end, l, rest));
      case Broke(level, l) =>
        LoopAt(c, rest, ctx, level - 1);
        assert r1[..ctx[level - 1].low] == rest[..ctx[level - 1].low];
      case Continued(level, l) =>
        LoopAt(c, rest, ctx, level - 1);
        var m := ctx[level - 1];
        assert r1[..m.pos] == rest[..m.pos] && r1[..m.pos + 1] == rest[..m.pos + 1];
      case _ =>
    }
  }

  /** The body of a loop has been left for good. */
  lemma LoopLeft(c: Code, s: State, rest: seq<Var>, r1: seq<Var>, ctx: seq<Loop>, m: Loop, o: Outcome, stop: nat, fuel: nat)
    requires Does(c, s, r1, [m] + ctx, o, stop, fuel) && AfterBody(o).Err?
    requires |rest| <= |r1| && r1[..|rest|] == rest && m.low == |rest| && InLoops(c, rest, ctx)
    ensures Does(c, s, rest, ctx, AfterBody(o).error, m.end, fuel)
  {
    match o {
      case Broke(level, l) =>
        if level > 1 {
          LoopAt(c, rest, ctx, level - 2);
          assert ([m] + ctx)[level - 1] == ctx[level - 2];
          assert r1[..ctx[level - 2].low] == rest[..ctx[level - 2].low];
        }
      case Continued(level, l) =>
        LoopAt(c, rest, ctx, level - 2);
        var n := ctx[level - 2];
        assert ([m] + ctx)[level - 1] == n;
        assert r1[..n.pos] == rest[..n.pos] && r1[..n.pos + 1] == rest[..n.pos + 1];
      case _ =>
    }
  }

  /** Another turn: the loop is entered again at s2, one step or more after s. */
  lemma Turned(c: Code, s: State, s2: State, rest: seq<Var>, ctx: seq<Loop>, o: Outcome, end: nat, fuel: nat)
    requires Goes(c, Step(c, s), s2) && Does(c, s2, rest, ctx, o, end, fuel)
    ensures Does(c, s, rest, ctx, o, end, fuel + 1)
  {
    if o.Timeout? {
      LongStep(c, s, s2, fuel);
    } else {
      GoesStep(c, s);
      GoesTrans(c, s, Step(c, s), s2);
      DoesAfter(c, s, s2, rest, ctx, o, end, fuel);
    }
  }

  // ---------------------------------------------------------------- statements from their parts

  lemma PopJoins(c: Code, base: nat, i: nat, l: seq<Var>, rest: seq<Var>, ctx: seq<Loop>, a: Res, fuel: nat)
    requires Good(c, l) && Yields(c, base, l, rest, a, i) && At(c, i, [POP])
    ensures Does(c, On(base, l, rest), rest, ctx, if a.X? then Failed(a.err) else Normal(l), i + 1, fuel)
  {
    YieldsOn(c, base, l, rest, a, i);
    if a.V? {
      PopStep(c, i, l, rest, a.v);
      GoesTrans(c, On(base, l, rest), On(i, l, rest + [a.v]), On(i + 1, l, rest));
    }
  }

  lemma AssignJoins(c: Code, base: nat, i: nat, k: nat, l: seq<Var>, rest: seq<Var>, ctx: seq<Loop>, a: Res, fuel: nat)
    requires Good(c, l) && Yields(c, base, l, rest, a, i) && At(c, i, [ASGNLVAR, k]) && k < |l|
    ensures Does(c, On(base, l, rest), rest, ctx, if a.X? then Failed(a.err) else Normal(l[k := a.v]), i + 2, fuel)
  {
    YieldsOn(c, base, l, rest, a, i);
    if a.V? {
      PlainPut(l, k, a.v);
      AssignStep(c, i, k, l, rest, a.v);
      GoesTrans(c, On(base, l, rest), On(i, l, rest + [a.v]), On(i + 2, l[k := a.v], rest));
    }
  }

  lemma ReturnJoins(c: Code, base: nat, i: nat, l: seq<Var>, rest: seq<Var>, ctx: seq<Loop>, a: Res, fuel: nat)
    requires Yields(c, base, l, rest, a, i) && At(c, i, [T_RETURN])
    ensures Does(c, On(base, l, rest), rest, ctx, if a.X? then Failed(a.err) else Returned(a.v), i + 1, fuel)
  {
    YieldsOn(c, base, l, rest, a, i);
    if a.V? {
      ReturnStep(c, i, l, rest, a.v);
      StopsAfter(c, On(base, l, rest), On(i, l, rest + [a.v]), a.v);
    }
  }

  lemma SeqJoins(c: Code, s: State, i: nat, rest: seq<Var>, ctx: seq<Loop>, o: Outcome, q: Outcome, end: nat, fuel: nat)
    requires Does(c, s, rest, ctx, o, i, fuel)
    requires o.Normal? ==> Does(c, On(i, o.locals, rest), rest, ctx, q, end, fuel)
    ensures Does(c, s, rest, ctx, if o.Normal? then q else o, end, fuel)
  {
    if o.Normal? { DoesAfter(c, s, On(i, o.locals, rest), rest, ctx, q, end, fuel); }
  }

  /** if: the body stops at stop, what follows it takes care of itself. */
  lemma IfJoins(c: Code, base: nat, i: nat, next: nat, stop: nat, end: nat, l: seq<Var>, rest: seq<Var>, ctx: seq<Loop>,
      a: Res, o: Outcome, q: Outcome, fuel: nat)
    requires Yields(c, base, l, rest, a, i) && At(c, i, [IF, next, end]) && next > 0
    requires At(c, stop, [STOP]) && InLoops(c, rest, ctx)
    requires a.V? && True(a.v) ==> Does(c, On(i + 3, l, rest + [Num(end)]), rest + [Num(end)], ctx, o, stop, fuel)
    requires a.V? && !True(a.v) ==> Does(c, On(next, l, rest + [Num(end)]), rest, ctx, q, end, fuel)
    ensures Does(c, On(base, l, rest), rest, ctx, if a.X? then Failed(a.err) else if True(a.v) then o else q, end, fuel)
  {
    YieldsOn(c, base, l, rest, a, i);
    if a.V? {
      IfStep(c, i, next, end, l, rest, a.v);
      var s1 := On(if True(a.v) then i + 3 else next, l, rest + [Num(end)]);
      GoesTrans(c, On(base, l, rest), On(i, l, rest + [a.v]), s1);
      if True(a.v) { IfLeft(c, s1, rest, ctx, o, stop, end, fuel); }
      DoesAfter(c, On(base, l, rest), s1, rest, ctx, if True(a.v) then o else q, end, fuel);
    }
  }

  lemma ElseIfJoins(c: Code, base: nat, i: nat, next: nat, stop: nat, end: nat, l: seq<Var>, rest: seq<Var>,
      ctx: seq<Loop>, a: Res, o: Outcome, q: Outcome, fuel: nat)
    requires Yields(c, base, l, rest + [Num(end)], a, i) && At(c, i, [ELSEIF, next])
    requires At(c, stop, [STOP]) && InLoops(c, rest, ctx)
    requires a.V? && True(a.v) ==> Does(c, On(i + 2, l, rest + [Num(end)]), rest + [Num(end)], ctx, o, stop, fuel)
    requires a.V? && !True(a.v) ==> Does(c, On(next, l, rest + [Num(end)]), rest, ctx, q, end, fuel)
    ensures Does(c, On(base, l, rest + [Num(end)]), rest, ctx,
                 if a.X? then Failed(a.err) else if True(a.v) then o else q, end, fuel)
  {
    YieldsOn(c, base, l, rest + [Num(end)], a, i);
    if a.V? {
      var r1 := rest + [Num(end)];
      ElseIfStep(c, i, next, l, r1, a.v);
      var s1 := On(if True(a.v) then i + 2 else next, l, r1);
      GoesTrans(c, On(base, l, r1), On(i, l, r1 + [a.v]), s1);
      if True(a.v) { IfLeft(c, s1, rest, ctx, o, stop, end, fuel); }
      DoesAfter(c, On(base, l, r1), s1, rest, ctx, if True(a.v) then o else q, end, fuel);
    }
  }

  lemma ElseJoins(c: Code, base: nat, stop: nat, end: nat, l: seq<Var>, rest: seq<Var>, ctx: seq<Loop>, o: Outcome,
      fuel: nat)
    requires At(c, base, [ELSE]) && At(c, stop, [STOP]) && InLoops(c, rest, ctx)
    requires Does(c, On(base + 1, l, rest + [Num(end)]), rest + [Num(end)], ctx, o, stop, fuel)
    ensures Does(c, On(base, l, rest + [Num(end)]), rest, ctx, o, end, fuel)
  {
    var r1 := rest + [Num(end)];
    NullStep(c, base, ELSE, l + r1);
    IfLeft(c, On(base + 1, l, r1), rest, ctx, o, stop, end, fuel);
    DoesAfter(c, On(base, l, r1), On(base + 1, l, r1), rest, ctx, o, end, fuel);
  }

  /** The bounds of a range loop, and then the loop. */
  lemma ForJoins(c: Code, base: nat, j: nat, at: nat, l: seq<Var>, rest: seq<Var>, ctx: seq<Loop>, a: Res, b: Res,
      o: Outcome, end: nat, fuel: nat)
    requires Yields(c, base, l, rest, a, j)
    requires a.V? ==> Yields(c, j, l, rest + [a.v], b, at)
    requires a.V? && b.V? ==> Does(c, On(at, l, rest + [a.v] + [b.v]), rest, ctx, o, end, fuel)
    ensures Does(c, On(base, l, rest), rest, ctx,
                 if a.X? then Failed(a.err) else if b.X? then Failed(b.err) else o, end, fuel)
  {
    YieldsOn(c, base, l, rest, a, j);
    if a.V? { YieldsOn(c, j, l, rest + [a.v], b, at); }
    if a.V? {
      var s, s1 := On(base, l, rest), On(j, l, rest + [a.v]);
      if b.X? {
        FailsTrans(c, s, s1, b.err);
      } else {
        var s2 := On(at, l, rest + [a.v] + [b.v]);
        GoesTrans(c, s, s1, s2);
        DoesAfter(c, s, s2, rest, ctx, o, end, fuel);
      }
    }
  }

  /** The body is through, or a continue leads here: the loop is at its head again. */
  lemma HeadAgain(c: Code, s: State, r: seq<Var>, at: nat, m: Loop, ctx: seq<Loop>, o: Outcome, stop: nat, fuel: nat)
    requires Does(c, s, r + [Pc(at)], [m] + ctx, o, stop, fuel) && At(c, stop, [STOP]) && AfterBody(o).Ok?
    requires m.addr == at && !m.kind.DoLoop? && m.pos == |r|
    ensures Good(c, AfterBody(o).value) && Goes(c, s, On(at, AfterBody(o).value, r))
  {
    var l := AfterBody(o).value;
    if o.Normal? {
      StopStep(c, stop, l, r, Pc(at), at);
      GoesTrans(c, s, On(stop, l, r + [Pc(at)]), On(at, l, r));
    } else {
      assert (r + [Pc(at)])[..m.pos] == r;
    }
  }

  /** A turn of a loop: its body with outcome o from s1, then either the loop is left, or it goes on at its
      head with outcome q. */
  lemma TurnJoins(c: Code, s: State, s1: State, rest: seq<Var>, r: seq<Var>, at: nat, ctx: seq<Loop>, m: Loop,
      o: Outcome, stop: nat, q: Outcome, fuel: nat)
    requires Goes(c, Step(c, s), s1) && Does(c, s1, r + [Pc(at)], [m] + ctx, o, stop, fuel) && At(c, stop, [STOP])
    requires m.addr == at && !m.kind.DoLoop? && m.pos == |r| && m.low == |rest| && InLoops(c, rest, ctx)
    requires |rest| <= |r| && r[..|rest|] == rest && fuel > 0
    requires AfterBody(o).Ok? ==> Does(c, On(at, AfterBody(o).value, r), rest, ctx, q, m.end, fuel - 1)
    ensures Does(c, s, rest, ctx, if AfterBody(o).Ok? then q else AfterBody(o).error, m.end, fuel)
  {
    match AfterBody(o) {
      case Err(x) =>
        LoopLeft(c, s1, rest, r + [Pc(at)], ctx, m, o, stop, fuel);
        GoesStep(c, s);
        GoesTrans(c, s, Step(c, s), s1);
        DoesAfter(c, s, s1, rest, ctx, x, m.end, fuel);
      case Ok(l) =>
        HeadAgain(c, s1, r, at, m, ctx, o, stop, fuel);
        GoesTrans(c, Step(c, s), s1, On(at, l, r));
        Turned(c, s, On(at, l, r), rest, ctx, q, m.end, fuel - 1);
    }
  }

  /** The head of a while loop: its condition, then the end or a turn. */
  lemma WhileJoins(c: Code, base: nat, i: nat, end: nat, l: seq<Var>, rest: seq<Var>, ctx: seq<Loop>, a: Res, o: Outcome,
      fuel: nat)
    requires Good(c, l) && At(c, base, [PUSHPC]) && At(c, i, [WHILE, end])
    requires |l| + |rest| < STACK_SIZE ==> Yields(c, base + 1, l, rest + [Pc(base)], a, i)
    requires |l| + |rest| < STACK_SIZE && a.V? && True(a.v)
             && Goes(c, Step(c, On(base, l, rest)), On(i + 2, l, rest + [Pc(base)])) ==>
               Does(c, On(base, l, rest), rest, ctx, o, end, fuel)
    ensures Does(c, On(base, l, rest), rest, ctx,
                 if |l| + |rest| >= STACK_SIZE then Failed(E_STACKOVR)
                 else if a.X? then Failed(a.err) else if True(a.v) then o else Normal(l), end, fuel)
  {
    var s, r1 := On(base, l, rest), rest + [Pc(base)];
    PcStep(c, base, [PUSHPC], l, rest, base);
    if |l| + |rest| < STACK_SIZE {
      GoesStep(c, s);
      YieldsOn(c, base + 1, l, r1, a, i);
      if a.X? {
        FailsTrans(c, s, Step(c, s), a.err);
      } else {
        WhileStep(c, i, end, l, rest, Pc(base), a.v);
        var s1 := if True(a.v) then On(i + 2, l, r1) else On(end, l, rest);
        GoesTrans(c, Step(c, s), On(i, l, r1 + [a.v]), s1);
        GoesTrans(c, s, Step(c, s), s1);
      }
    }
  }

  /** A turn of a do loop: its body with outcome o, its condition, then the end or another turn. */
  lemma DoJoins(c: Code, i: nat, at: nat, dw: nat, l: seq<Var>, rest: seq<Var>, ctx: seq<Loop>, o: Outcome, a: Res,
      q: Outcome, fuel: nat)
    requires At(c, dw, [DOWHILE, i, at]) && InLoops(c, rest, ctx) && fuel > 0
    requires Does(c, On(i, l, rest + [Pc(dw)]), rest + [Pc(dw)],
                  [Loop(DoLoop, dw, |rest|, |rest|, dw + 3)] + ctx, o, at, fuel)
    requires AfterBody(o).Ok? ==> Yields(c, at, AfterBody(o).value, rest + [Pc(dw)], a, dw)
    requires AfterBody(o).Ok? && a.V? && True(a.v) ==>
               Does(c, On(i, AfterBody(o).value, rest + [Pc(dw)]), rest, ctx, q, dw + 3, fuel - 1)
    ensures Does(c, On(i, l, rest + [Pc(dw)]), rest, ctx,
                 match AfterBody(o) {
                   case Err(x) => x
                   case Ok(l2) => if a.X? then Failed(a.err) else if True(a.v) then q else Normal(l2)
                 }, dw + 3, fuel)
  {
    var r1, m := rest + [Pc(dw)], Loop(DoLoop, dw, |rest|, |rest|, dw + 3);
    var s := On(i, l, r1);
    match AfterBody(o) {
      case Err(_) => LoopLeft(c, s, rest, r1, ctx, m, o, at, fuel);
      case Ok(l2) =>
        AtWord(c, dw, [DOWHILE, i, at]);
        assert r1[..m.pos + 1] == r1;
        YieldsOn(c, at, l2, r1, a, dw);
        if a.X? {
          FailsTrans(c, s, On(at, l2, r1), a.err);
        } else {
          var s1 := On(dw, l2, r1 + [a.v]);
          GoesTrans(c, s, On(at, l2, r1), s1);
          DoWhileStep(c, dw, i, at, l2, rest, Pc(dw), a.v);
          GoesStep(c, s1);
          GoesTrans(c, s, s1, Step(c, s1));
          if True(a.v) {
            GoesSelf(c, Step(c, s1));
            Turned(c, s1, Step(c, s1), rest, ctx, q, dw + 3, fuel - 1);
            DoesAfter(c, s, s1, rest, ctx, q, dw + 3, fuel);
          }
        }
    }
  }
}

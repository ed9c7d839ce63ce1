/** Whole methods: what running one comes to, when it ends, and where break leads. */
module VmMethod {
  import opened Wrappers
  import opened Values
  import opened Vm
  import opened VmLang
  import opened VmProof
  import opened VmStmts
  import opened VmRuns
  import opened VmMachine

  /** A method made of the statements b. */
  ghost predicate Method(c: Code, b: Block, locals: seq<Var>) {
    Proper(c) && c.words == Compiled(b) && Good(c, locals) && SoundBlock(b, c.nvars, 0, [])
  }

  function Meaning(c: Code, b: Block, locals: seq<Var>, fuel: nat): Outcome {
    ExecBlock(c, b, locals, |locals| + 1, fuel)
  }

  /** The machine does what the statements mean: it ends with the value returned, or 0 when they run off the
      end, or raises their error; it runs on as long as a loop of theirs does; and no break or continue is
      left over. */
  lemma MethodRuns(c: Code, b: Block, locals: seq<Var>, fuel: nat)
    requires Method(c, b, locals)
    ensures match Meaning(c, b, locals, fuel)
            case Normal(_) => Stops(c, Start(c, locals), Num(0))
            case Returned(v) => Stops(c, Start(c, locals), v)
            case Failed(e) => Fails(c, Start(c, locals), e)
            case Timeout => Long(c, Start(c, locals), fuel)
            case Strayed => Fails(c, Start(c, locals), E_INTERNAL)
            case _ => false
  {
    var rest := [Num(-1)];
    assert Start(c, locals) == On(0, locals, rest);
    AllPlaced(c, b);
    BlockGoes(c, b, 0, locals, rest, [], [], fuel);
    var o := Meaning(c, b, locals, fuel);
    if o.Normal? {
      EndStep(c, LenBlock(b), o.locals);
      StopsAfter(c, On(0, locals, rest), On(LenBlock(b), o.locals, rest), Num(0));
    }
  }

  lemma AllPlaced(c: Code, b: Block)
    requires c.words == Compiled(b)
    ensures At(c, 0, CodeBlock(b, 0)) && At(c, LenBlock(b), [STOP])
  {
    forall i ensures WordAt(c, 0, Compiled(b), i) { }
    AtSplit(c, 0, CodeBlock(b, 0), [STOP]);
  }

  lemma EndStep(c: Code, at: nat, l: seq<Var>)
    requires At(c, at, [STOP])
    ensures Stops(c, On(at, l, [Num(-1)]), Num(0))
  {
    Over(l, [], Num(-1));
    OneStep(c, at, [STOP], l + [Num(-1)], State(at + 1, l, Stopped(Num(0))));
  }

  // ---------------------------------------------------------------- straying

  /** Only what ignores E_TYPE strays, and no operator of a standard method raises E_INTERNAL. */
  predicate Fated(c: Code, o: Outcome) {
    (o.Strayed? ==> E_TYPE in c.ignored) && (o.Failed? ==> o.err != E_INTERNAL)
  }

  ghost predicate Standard(c: Code) { forall op, l, r {:trigger c.apply(op, l, r)} :: c.apply(op, l, r) != X(E_INTERNAL) }

  lemma ApplyStandard(c: Code)
    requires c.apply == Apply
    ensures Standard(c)
  {
    forall op, l, r ensures Apply(op, l, r) != X(E_INTERNAL) { }
  }

  lemma {:induction false} EvalFated(c: Code, e: Expr, locals: seq<Var>, h: nat)
    requires Standard(c)
    ensures Eval(c, e, locals, h) != X(E_INTERNAL)
    decreases e, 0
  {
    match e {
      case Bin(op, l, r) =>
        EvalFated(c, l, locals, h);
        EvalFated(c, r, locals, h + 1);
      case Not(x) => EvalFated(c, x, locals, h);
      case Neg(x) => EvalFated(c, x, locals, h);
      case Short(any, l, r) =>
        EvalFated(c, l, locals, h);
        EvalFated(c, r, locals, h);
      case ListC(args) => ArgsFated(c, args, locals, h + 1);
      case _ =>
    }
  }

  lemma {:induction false} ArgsFated(c: Code, args: Args, locals: seq<Var>, h: nat)
    requires Standard(c)
    ensures EvalArgs(c, args, locals, h) != Result.Err(E_INTERNAL)
    decreases args, 0
  {
    if args.Arg? {
      EvalFated(c, args.e, locals, h);
      var a := EvalArg(c, args.e, args.splice, locals, h);
      if a.Ok? { ArgsFated(c, args.rest, locals, h + |a.value|); }
    }
  }

  lemma {:induction false} BlockFated(c: Code, b: Block, locals: seq<Var>, h: nat, fuel: nat)
    requires Standard(c)
    ensures Fated(c, ExecBlock(c, b, locals, h, fuel))
    decreases b, 0
  {
    if b.Seq? {
      StmtFated(c, b.s, locals, h, fuel);
      var o := Exec(c, b.s, locals, h, fuel);
      if o.Normal? { BlockFated(c, b.rest, o.locals, h, fuel); }
    }
  }

  lemma {:induction false} StmtFated(c: Code, s: Stmt, locals: seq<Var>, h: nat, fuel: nat)
    requires Standard(c)
    ensures Fated(c, Exec(c, s, locals, h, fuel))
    decreases s, 0
  {
    match s {
      case ExprS(e) => EvalFated(c, e, locals, h);
      case Assign(_, e) => EvalFated(c, e, locals, h);
      case Return(e) => EvalFated(c, e, locals, h);
      case If(cond, body, alt) =>
        EvalFated(c, cond, locals, h);
        BlockFated(c, body, locals, h + 1, fuel);
        AltFated(c, alt, locals, h + 1, fuel);
      case ForRange(k, lo, hi, body) =>
        EvalFated(c, lo, locals, h);
        EvalFated(c, hi, locals, h + 1);
        var a, b := Eval(c, lo, locals, h), Eval(c, hi, locals, h + 1);
        if a.V? && b.V? { RangeFated(c, k, a.v, b.v, body, locals, h, fuel); }
      case While(cond, body) => WhileFated(c, cond, body, locals, h, fuel);
      case DoWhile(body, cond) => DoFated(c, body, cond, locals, h, fuel);
      case _ =>
    }
  }

  lemma {:induction false} AltFated(c: Code, a: Alt, locals: seq<Var>, h: nat, fuel: nat)
    requires Standard(c)
    ensures Fated(c, ExecAlt(c, a, locals, h, fuel))
    decreases a, 0
  {
    match a {
      case NoAlt =>
      case ElseIf(cond, body, rest) =>
        EvalFated(c, cond, locals, h);
        BlockFated(c, body, locals, h, fuel);
        AltFated(c, rest, locals, h, fuel);
      case Else(body) => BlockFated(c, body, locals, h, fuel);
    }
  }

  lemma {:induction false} RangeFated(c: Code, k: nat, v: Var, w: Var, body: Block, locals: seq<Var>, h: nat, fuel: nat)
    requires Standard(c)
    ensures Fated(c, ExecRange(c, k, v, w, body, locals, h, fuel))
    decreases body, 1, fuel
  {
    if v.Num? && w.Num? && fuel > 0 {
      var l := if k < |locals| then locals[k := v] else locals;
      BlockFated(c, body, l, h + 3, fuel);
      var o := AfterBody(ExecBlock(c, body, l, h + 3, fuel));
      if o.Ok? { RangeFated(c, k, Num(v.num + 1), w, body, o.value, h, fuel - 1); }
    }
  }

  lemma {:induction false} WhileFated(c: Code, cond: Expr, body: Block, locals: seq<Var>, h: nat, fuel: nat)
    requires Standard(c)
    ensures Fated(c, ExecWhile(c, cond, body, locals, h, fuel))
    decreases body, 1, fuel
  {
    EvalFated(c, cond, locals, h + 1);
    if fuel > 0 {
      BlockFated(c, body, locals, h + 1, fuel);
      var o := AfterBody(ExecBlock(c, body, locals, h + 1, fuel));
      if o.Ok? { WhileFated(c, cond, body, o.value, h, fuel - 1); }
    }
  }

  lemma {:induction false} DoFated(c: Code, body: Block, cond: Expr, locals: seq<Var>, h: nat, fuel: nat)
    requires Standard(c)
    ensures Fated(c, ExecDo(c, body, cond, locals, h, fuel))
    decreases body, 1, fuel
  {
    if fuel > 0 {
      BlockFated(c, body, locals, h + 1, fuel);
      var o := AfterBody(ExecBlock(c, body, locals, h + 1, fuel));
      if o.Ok? {
        EvalFated(c, cond, o.value, h + 1);
        DoFated(c, body, cond, o.value, h, fuel - 1);
      }
    }
  }

  /** for k in ["" .. ""] endfor: the bounds are no numbers. */
  const STRAYS := Seq(ForRange(0, StrC(0), StrC(0), Nil), Nil)

  lemma StraysWords()
    ensures Compiled(STRAYS) == [STRPUSH, 0, STRPUSH, 0, FORRNG, 0, 8, STOP, STOP]
  {
    assert CodeStmt(ForRange(0, StrC(0), StrC(0), Nil), 0) == [STRPUSH, 0, STRPUSH, 0, FORRNG, 0, 8, STOP];
  }

  /** Ignoring E_TYPE does not help a range loop: FORRNG goes on with the number of its variable, which is no
      opcode, and the method ends with E_INTERNAL. */
  lemma RangeStrays(c: Code, fuel: nat)
    requires c.words == Compiled(STRAYS) && E_TYPE in c.ignored
    ensures Meaning(c, STRAYS, [Num(0)], fuel).Strayed?
    ensures StepN(c, Start(c, [Num(0)]), 3) == State(5, [Num(0), Num(-1), Var.Err(E_TYPE)], Running)
    ensures StepN(c, Start(c, [Num(0)]), 4).status == Raised(E_INTERNAL)
  {
    StraysWords();
    StraysSteps(c);
    StraysMeans(c, fuel);
    hide Step;
    var e := Str(c.syms(0));
    ThreeSteps(c, Start(c, [Num(0)]), State(2, [Num(0), Num(-1), e], Running), State(4, [Num(0), Num(-1), e, e], Running),
               State(5, [Num(0), Num(-1), Var.Err(E_TYPE)], Running));
  }

  lemma StraysMeans(c: Code, fuel: nat)
    requires E_TYPE in c.ignored
    ensures Meaning(c, STRAYS, [Num(0)], fuel).Strayed?
  {
    assert Eval(c, StrC(0), [Num(0)], 2) == V(Str(c.syms(0))) && Eval(c, StrC(0), [Num(0)], 3) == V(Str(c.syms(0)));
  }

  lemma StraysSteps(c: Code)
    requires c.words == [STRPUSH, 0, STRPUSH, 0, FORRNG, 0, 8, STOP, STOP] && E_TYPE in c.ignored
    ensures var e := Str(c.syms(0));
            var s1, s2 := State(2, [Num(0), Num(-1), e], Running), State(4, [Num(0), Num(-1), e, e], Running);
            var s3 := State(5, [Num(0), Num(-1), Var.Err(E_TYPE)], Running);
            && Step(c, Start(c, [Num(0)])) == s1 && Step(c, s1) == s2 && Step(c, s2) == s3
            && Step(c, s3).status == Raised(E_INTERNAL)
  {
    var e := Str(c.syms(0));
    var s2 := State(4, [Num(0), Num(-1), e, e], Running);
    ForrngPerforms(c, s2.(pc := 5), 0, 8);
    assert Drop(Drop(s2.stack, 1), 1) == [Num(0), Num(-1)];
    hide Break, Continue;
  }

  lemma ThreeSteps(c: Code, s: State, s1: State, s2: State, s3: State)
    requires Step(c, s) == s1 && Step(c, s1) == s2 && Step(c, s2) == s3
    ensures StepN(c, s, 3) == s3 && StepN(c, s, 4) == Step(c, s3)
  {
    hide Step;
    assert StepN(c, s2, 1) == s3;
    assert StepN(c, s2, 2) == Step(c, s3) by { assert StepN(c, s3, 1) == Step(c, s3); }
    assert StepN(c, s1, 2) == s3 && StepN(c, s1, 3) == Step(c, s3);
  }

  ghost predicate Straying(ignored: set<int>, c: Code, b: Block, locals: seq<Var>, fuel: nat) {
    c.ignored == ignored && c.apply == Apply && Method(c, b, locals) && Meaning(c, b, locals, fuel).Strayed?
  }

  /** There are methods whose range loops stray exactly when E_TYPE is ignored. */
  lemma StrayIff(ignored: set<int>)
    requires ignored !! NO_IGNORE
    ensures (exists c, b, locals, fuel :: Straying(ignored, c, b, locals, fuel)) <==> E_TYPE in ignored
  {
    if c, b, locals, fuel :| Straying(ignored, c, b, locals, fuel) {
      ApplyStandard(c);
      BlockFated(c, b, locals, |locals| + 1, fuel);
    }
    if E_TYPE in ignored {
      var c := Code(Compiled(STRAYS), _ => "", 1, ignored, Apply);
      StandardProper(c);
      StraysMeans(c, 0);
      assert Plain(Num(0)) && Good(c, [Num(0)]);
      assert Straying(ignored, c, STRAYS, [Num(0)], 0);
    }
  }

  // ---------------------------------------------------------------- ending

  lemma {:induction false} StaysHalted(c: Code, s: State, n: nat)
    requires !s.status.Running?
    ensures StepN(c, s, n) == s
    decreases n
  {
    if n > 0 { StaysHalted(c, s, n - 1); }
  }

  lemma {:induction false} StepsAdd(c: Code, s: State, m: nat, n: nat)
    ensures StepN(c, s, m + n) == StepN(c, StepN(c, s, m), n)
    decreases m
  {
    if m > 0 { StepsAdd(c, Step(c, s), m - 1, n); }
  }

  /** A machine that has halted after n steps has not run long. */
  lemma HaltedNotLong(c: Code, s: State, n: nat)
    requires !StepN(c, s, n).status.Running?
    ensures !Long(c, s, n)
  {
    if Long(c, s, n) {
      var tr: seq<State> :| Trace(c, tr) && tr[0] == s && |tr| > n && tr[|tr| - 1].status.Running?;
      TraceSteps(c, tr);
      StepsAdd(c, s, n, |tr| - 1 - n);
      StaysHalted(c, StepN(c, s, n), |tr| - 1 - n);
      assert false;
    }
  }

  lemma GoesSteps(c: Code, s: State, s': State) returns (k: nat)
    requires Goes(c, s, s')
    ensures StepN(c, s, k) == s'
  {
    var tr: seq<State> :| Trace(c, tr) && tr[0] == s && tr[|tr| - 1] == s';
    TraceSteps(c, tr);
    k := |tr| - 1;
  }

  /** The machine comes to a halt exactly when the statements' loops do. */
  lemma HaltsIff(c: Code, b: Block, locals: seq<Var>)
    requires Method(c, b, locals)
    ensures (exists n: nat :: !StepN(c, Start(c, locals), n).status.Running?)
            <==> (exists fuel: nat :: !Meaning(c, b, locals, fuel).Timeout?)
  {
    var s := Start(c, locals);
    if n: nat :| !StepN(c, s, n).status.Running? {
      MethodRuns(c, b, locals, n);
      HaltedNotLong(c, s, n);
      assert !Meaning(c, b, locals, n).Timeout?;
    }
    if fuel: nat :| !Meaning(c, b, locals, fuel).Timeout? {
      var s' := HaltState(c, b, locals, fuel);
      var k := GoesSteps(c, s, s');
    }
  }

  function Status1(o: Outcome): Status {
    match o case Returned(v) => Stopped(v) case Failed(e) => Raised(e) case Normal(_) => Stopped(Num(0))
            case Strayed => Raised(E_INTERNAL) case _ => Lost
  }

  /** execute() ends as the statements mean it to, when the machine halts before the ticks run out. */
  lemma ExecuteMeans(c: Code, b: Block, locals: seq<Var>, n: nat, ticks: int, maxTicks: int)
    requires Method(c, b, locals)
    requires !StepN(c, Start(c, locals), n).status.Running? && ticks + n < maxTicks
    ensures !Meaning(c, b, locals, n).Timeout?
    ensures Executed(c, Start(c, locals), ticks, maxTicks).status == Status1(Meaning(c, b, locals, n))
  {
    var s := Start(c, locals);
    MethodRuns(c, b, locals, n);
    HaltedNotLong(c, s, n);
    var s' := HaltState(c, b, locals, n);
    var k := GoesSteps(c, s, s');
    HaltsOnce(c, s, k, n);
    ExecutedSteps(c, s, ticks, maxTicks, n);
  }

  lemma HaltState(c: Code, b: Block, locals: seq<Var>, fuel: nat) returns (s': State)
    requires Method(c, b, locals) && !Meaning(c, b, locals, fuel).Timeout?
    ensures Goes(c, Start(c, locals), s') && !s'.status.Running? && s'.status == Status1(Meaning(c, b, locals, fuel))
  {
    MethodRuns(c, b, locals, fuel);
    var s := Start(c, locals);
    match Meaning(c, b, locals, fuel) {
      case Normal(_) => s' :| Goes(c, s, s') && s'.status == Stopped(Num(0));
      case Returned(v) => s' :| Goes(c, s, s') && s'.status == Stopped(v);
      case Failed(e) => s' :| Goes(c, s, s') && s'.status == Raised(e);
      case Strayed => s' :| Goes(c, s, s') && s'.status == Raised(E_INTERNAL);
    }
  }

  /** A standard method ends with E_INTERNAL exactly when its statements stray; in every other case it has their
      effect. */
  lemma InternalIff(c: Code, b: Block, locals: seq<Var>)
    requires Method(c, b, locals) && c.apply == Apply
    ensures Fails(c, Start(c, locals), E_INTERNAL) <==> exists fuel: nat :: Meaning(c, b, locals, fuel).Strayed?
  {
    var s := Start(c, locals);
    if Fails(c, s, E_INTERNAL) {
      var s1 :| Goes(c, s, s1) && s1.status == Raised(E_INTERNAL);
      var k := GoesSteps(c, s, s1);
      MethodRuns(c, b, locals, k);
      HaltedNotLong(c, s, k);
      var s2 := HaltState(c, b, locals, k);
      var n := GoesSteps(c, s, s2);
      HaltsOnce(c, s, k, n);
      ApplyStandard(c);
      BlockFated(c, b, locals, |locals| + 1, k);
      assert Meaning(c, b, locals, k).Strayed?;
    }
    if fuel: nat :| Meaning(c, b, locals, fuel).Strayed? {
      MethodRuns(c, b, locals, fuel);
    }
  }

  lemma HaltsOnce(c: Code, s: State, m: nat, n: nat)
    requires !StepN(c, s, m).status.Running? && !StepN(c, s, n).status.Running?
    ensures StepN(c, s, m) == StepN(c, s, n)
  {
    if m <= n {
      StepsAdd(c, s, m, n - m);
      StaysHalted(c, StepN(c, s, m), n - m);
    } else {
      StepsAdd(c, s, n, m - n);
      StaysHalted(c, StepN(c, s, n), m - n);
    }
  }

  // ---------------------------------------------------------------- break out of a while loop

  /** A break out of a while loop leads to its end exactly when its search for the word WHILE does. */
  lemma WhileBreakIff(c: Code, cond: Expr, body: Block, base: nat, end: nat, pc: int, l: seq<Var>, rest: seq<Var>)
    requires WhileAt(c, cond, body, base, end)
    ensures var s := Break(c, On(pc, l, rest + [Pc(base)]), 1);
            s.status.Running? && s.pc == end <==> BreakFinds(cond, base, end)
  {
    var w, st := [PUSHPC] + Code1(cond, base + 1) + [WHILE, end], l + (rest + [Pc(base)]);
    AtJoin3(c, base, [PUSHPC], Code1(cond, base + 1), [WHILE, end]);
    AtWord(c, base, w);
    ScanFinds(w, 0, |w| - 2);
    ScanAt(c, base, w, 0);
    assert WordAt(c, base, w, ScanWhile(w, 0) + 1);
    TopAddr(st, |st| - 1);
    assert UnwoundTo(st, 1) == Unwound(st);
  }

  lemma {:induction false} ScanFinds(w: seq<int>, i: nat, k: nat)
    requires i <= k < |w| && w[k] == WHILE
    ensures ScanWhile(w, i) <= k
    decreases k - i
  {
    if i < k && w[i] != WHILE { ScanFinds(w, i + 1, k); }
  }

  /** It does when no word of the condition equals WHILE. */
  lemma NoWhileWord(cond: Expr, base: nat, end: nat)
    requires WHILE !in Code1(cond, base + 1)
    ensures BreakFinds(cond, base, end)
  {
    var u := Code1(cond, base + 1);
    var w := [PUSHPC] + u + [WHILE, end];
    forall i | 0 <= i < |w| - 2 ensures w[i] != WHILE {
      if i > 0 { assert w[i] == u[i - 1] && u[i - 1] in u; }
    }
    ScanPast(w, 0, |w| - 2);
  }

  lemma {:induction false} ScanPast(w: seq<int>, i: nat, k: nat)
    requires i <= k < |w| && w[k] == WHILE && forall j :: i <= j < k ==> w[j] != WHILE
    ensures ScanWhile(w, i) == k
    decreases k - i
  {
    if i < k { ScanPast(w, i + 1, k); }
  }

  /** while (399) break; leads astray: to the word after the number, taken for an address. */
  lemma BreakAstrayIff(end: nat)
    ensures BreakFinds(NumC(WHILE), 0, end) <==> end == WHILE
  {
    var w := [PUSHPC] + [NUMPUSH, WHILE] + [WHILE, end];
    assert Code1(NumC(WHILE), 1) == [NUMPUSH, WHILE];
    assert w[2] == WHILE && w[0] == PUSHPC && w[1] == NUMPUSH && w[3] == WHILE;
    ScanPast(w, 0, 2);
  }

  const ASTRAY := Seq(While(NumC(WHILE), Seq(BreakS(1), Nil)), Nil)

  lemma AstrayWords()
    ensures Compiled(ASTRAY) == [PUSHPC, NUMPUSH, WHILE, WHILE, 8, BREAK, 1, STOP, STOP]
  {
    assert CodeStmt(BreakS(1), 5) == [BREAK, 1];
    assert CodeBlock(Seq(BreakS(1), Nil), 5) == [BREAK, 1];
    assert CodeStmt(While(NumC(WHILE), Seq(BreakS(1), Nil)), 0) == [PUSHPC, NUMPUSH, WHILE, WHILE, 8, BREAK, 1, STOP];
  }

  lemma AstrayBreak(c: Code, s: State)
    requires c.words == [PUSHPC, NUMPUSH, WHILE, WHILE, 8, BREAK, 1, STOP, STOP]
    requires s == State(5, [Num(-1), Pc(0)], Running)
    ensures Step(c, s) == State(WHILE, [Num(-1)], Running) && Step(c, Step(c, s)).status.Lost?
  {
    var u := s.(pc := 7);
    ScanPast(c.words, 0, 2);
    assert s.stack[..1] == [Num(-1)];
    assert UnwoundTo(u.stack, 1) == Unwound(u.stack) == Some((0, [Num(-1)]));
    assert Break(c, u, 1) == State(WHILE, [Num(-1)], Running);
  }

  /** The loop is entered, and its first break reached. */
  lemma AstrayStarts(c: Code)
    requires c.words == [PUSHPC, NUMPUSH, WHILE, WHILE, 8, BREAK, 1, STOP, STOP]
    ensures var s1, s2 := State(1, [Num(-1), Pc(0)], Running), State(3, [Num(-1), Pc(0), Num(WHILE)], Running);
            Step(c, Start(c, [])) == s1 && Step(c, s1) == s2 && Step(c, s2) == State(5, [Num(-1), Pc(0)], Running)
  {
    hide Break, Continue, PerformTwo;
    assert [Num(-1), Pc(0), Num(WHILE)][..2] == [Num(-1), Pc(0)];
  }

  lemma AstrayMeans(c: Code)
    ensures Meaning(c, ASTRAY, [], 2) == Outcome.Normal([])
  {
    var body := Seq(BreakS(1), Nil);
    assert Eval(c, NumC(WHILE), [], 2) == V(Num(WHILE));
    assert ExecBlock(c, body, [], 2, 1) == Broke(1, []);
  }

  /** The run: the statements end at once, the machine breaks to word 399 of nine and is lost. */
  lemma BreakAstray(c: Code)
    requires c.words == Compiled(ASTRAY)
    ensures StepN(c, Start(c, []), 4) == State(WHILE, [Num(-1)], Running)
    ensures StepN(c, Start(c, []), 5).status.Lost?
    ensures Meaning(c, ASTRAY, [], 2) == Outcome.Normal([])
  {
    AstrayWords();
    AstrayStarts(c);
    AstrayBreak(c, State(5, [Num(-1), Pc(0)], Running));
    AstrayMeans(c);
    hide Step;
    FourSteps(c, Start(c, []), State(1, [Num(-1), Pc(0)], Running), State(3, [Num(-1), Pc(0), Num(WHILE)], Running),
              State(5, [Num(-1), Pc(0)], Running), State(WHILE, [Num(-1)], Running));
  }

  lemma FourSteps(c: Code, s: State, s1: State, s2: State, s3: State, s4: State)
    requires Step(c, s) == s1 && Step(c, s1) == s2 && Step(c, s2) == s3 && Step(c, s3) == s4
    ensures StepN(c, s, 4) == s4 && StepN(c, s, 5) == Step(c, s4)
  {
    hide Step;
    assert StepN(c, s3, 1) == s4 && StepN(c, s3, 2) == Step(c, s4) by { assert StepN(c, s4, 1) == Step(c, s4); }
    assert StepN(c, s1, 3) == StepN(c, s2, 2) == s4;
    assert StepN(c, s1, 4) == StepN(c, s2, 3) == Step(c, s4);
  }
}

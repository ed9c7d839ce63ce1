/** Running the words of an expression has exactly the effect of evaluating it: the value is left on top
    of the stack as it was, or the error is raised that evaluation gives. */
module VmProof {
  import opened Wrappers
  import opened Values
  import opened Vm
  import opened VmLang

  // ---------------------------------------------------------------- runs

  ghost predicate Moves(c: Code, tr: seq<State>, i: int) {
    0 <= i < |tr| - 1 ==> tr[i + 1] == Step(c, tr[i])
  }

  /** The states the machine passes through, one instruction after the other. */
  ghost predicate Trace(c: Code, tr: seq<State>) {
    |tr| > 0 && forall i {:trigger Moves(c, tr, i)} :: Moves(c, tr, i)
  }

  ghost predicate Goes(c: Code, s: State, s': State) {
    exists tr {:trigger Trace(c, tr)} :: Trace(c, tr) && tr[0] == s && tr[|tr| - 1] == s'
  }

  ghost predicate Fails(c: Code, s: State, err: int) {
    exists s' {:trigger Goes(c, s, s')} :: Goes(c, s, s') && s'.status == Raised(err)
  }

  lemma GoesSelf(c: Code, s: State)
    ensures Goes(c, s, s)
  {
    assert Trace(c, [s]);
  }

  lemma GoesStep(c: Code, s: State)
    ensures Goes(c, s, Step(c, s))
  {
    assert Trace(c, [s, Step(c, s)]);
  }

  lemma GoesTrans(c: Code, s: State, s1: State, s2: State)
    requires Goes(c, s, s1) && Goes(c, s1, s2)
    ensures Goes(c, s, s2)
  {
    var t :| Trace(c, t) && t[0] == s && t[|t| - 1] == s1;
    var u :| Trace(c, u) && u[0] == s1 && u[|u| - 1] == s2;
    TraceJoin(c, t, u);
  }

  lemma TraceJoin(c: Code, t: seq<State>, u: seq<State>)
    requires Trace(c, t) && Trace(c, u) && t[|t| - 1] == u[0]
    ensures Trace(c, t + u[1..]) && (t + u[1..])[0] == t[0] && (t + u[1..])[|t + u[1..]| - 1] == u[|u| - 1]
  {
    var w := t + u[1..];
    forall i ensures Moves(c, w, i) {
      assert Moves(c, t, i) && Moves(c, u, i - |t| + 1);
    }
  }

  lemma FailsTrans(c: Code, s: State, s1: State, err: int)
    requires Goes(c, s, s1) && Fails(c, s1, err)
    ensures Fails(c, s, err)
  {
    var s2 :| Goes(c, s1, s2) && s2.status == Raised(err);
    GoesTrans(c, s, s1, s2);
  }

  lemma FailsStep(c: Code, s: State, err: int)
    requires Step(c, s).status == Raised(err)
    ensures Fails(c, s, err)
  {
    GoesStep(c, s);
  }

  /** A trace is a run of as many steps as it is long. */
  lemma {:induction false} TraceSteps(c: Code, tr: seq<State>)
    requires Trace(c, tr)
    ensures StepN(c, tr[0], |tr| - 1) == tr[|tr| - 1]
    decreases |tr|
  {
    if |tr| > 1 {
      assert Moves(c, tr, 0);
      forall i ensures Moves(c, tr[1..], i) { assert Moves(c, tr, i + 1); }
      TraceSteps(c, tr[1..]);
    }
  }

  // ---------------------------------------------------------------- words in place

  ghost predicate WordAt(c: Code, base: nat, w: seq<int>, i: int) {
    0 <= i < |w| ==> base + i < |c.words| && c.words[base + i] == w[i]
  }

  /** The words w stand in the code from base on. */
  ghost predicate At(c: Code, base: nat, w: seq<int>) {
    forall i {:trigger WordAt(c, base, w, i)} :: WordAt(c, base, w, i)
  }

  lemma AtSplit(c: Code, base: nat, u: seq<int>, v: seq<int>)
    requires At(c, base, u + v)
    ensures At(c, base, u) && At(c, base + |u|, v)
  {
    forall i ensures WordAt(c, base, u, i) { assert WordAt(c, base, u + v, i); }
    var next := base + |u|;
    forall i ensures WordAt(c, next, v, i) { assert WordAt(c, base, u + v, |u| + i); }
  }

  lemma AtJoin(c: Code, base: nat, u: seq<int>, v: seq<int>)
    requires At(c, base, u) && At(c, base + |u|, v)
    ensures At(c, base, u + v)
  {
    forall i ensures WordAt(c, base, u + v, i) {
      assert WordAt(c, base, u, i) && WordAt(c, base + |u|, v, i - |u|);
    }
  }

  lemma AtSplit3(c: Code, base: nat, u: seq<int>, v: seq<int>, w: seq<int>)
    requires At(c, base, u + v + w)
    ensures At(c, base, u) && At(c, base + |u|, v) && At(c, base + |u| + |v|, w)
  {
    AtSplit(c, base, u + v, w);
    AtSplit(c, base, u, v);
  }

  lemma AtSplit4(c: Code, base: nat, u: seq<int>, v: seq<int>, w: seq<int>, x: seq<int>)
    requires At(c, base, u + v + w + x)
    ensures At(c, base, u) && At(c, base + |u|, v) && At(c, base + |u| + |v|, w) && At(c, base + |u| + |v| + |w|, x)
  {
    AtSplit(c, base, u + v + w, x);
    AtSplit3(c, base, u, v, w);
  }

  lemma AtWord(c: Code, base: nat, w: seq<int>)
    requires At(c, base, w)
    ensures |w| > 0 ==> base + |w| <= |c.words| && c.words[base] == w[0]
    ensures |w| > 1 ==> c.words[base + 1] == w[1]
    ensures |w| > 2 ==> c.words[base + 2] == w[2]
  {
    assert WordAt(c, base, w, 0) && WordAt(c, base, w, 1) && WordAt(c, base, w, 2) && WordAt(c, base, w, |w| - 1);
  }

  // ---------------------------------------------------------------- values that no instruction marks

  ghost predicate PlainAt(vs: seq<Var>, i: int) { 0 <= i < |vs| ==> Plain(vs[i]) }

  ghost predicate PlainAll(vs: seq<Var>) { forall i {:trigger PlainAt(vs, i)} :: PlainAt(vs, i) }

  lemma PlainList(v: Var)
    ensures v.List? ==> (Plain(v) <==> PlainAll(v.els))
  {
    if v.List? && PlainAll(v.els) {
      forall i | 0 <= i < |v.els| ensures Plain(v.els[i]) { assert PlainAt(v.els, i); }
    }
  }

  lemma PlainPut(vs: seq<Var>, k: nat, v: Var)
    requires PlainAll(vs) && Plain(v) && k < |vs|
    ensures PlainAll(vs[k := v])
  {
    var ws := vs[k := v];
    forall i ensures PlainAt(ws, i) { assert PlainAt(vs, i); }
  }

  lemma PlainJoin(vs: seq<Var>, ws: seq<Var>)
    requires PlainAll(vs) && PlainAll(ws)
    ensures PlainAll(vs + ws)
  {
    forall i ensures PlainAt(vs + ws, i) { assert PlainAt(vs, i) && PlainAt(ws, i - |vs|); }
  }

  /** The locals of an expression are those of the method. */
  predicate Known(e: Expr, nvars: nat) {
    match e
    case Local(k) => k < nvars
    case Bin(_, l, r) => Known(l, nvars) && Known(r, nvars)
    case Not(x) => Known(x, nvars)
    case Neg(x) => Known(x, nvars)
    case Short(_, l, r) => Known(l, nvars) && Known(r, nvars)
    case ListC(args) => KnownArgs(args, nvars)
    case _ => true
  }

  predicate KnownArgs(args: Args, nvars: nat) {
    match args case NoArgs => true case Arg(e, _, rest) => Known(e, nvars) && KnownArgs(rest, nvars)
  }

  /** A stack whose bottom holds the locals of c. */
  ghost predicate Based(c: Code, st: seq<Var>) { c.nvars <= |st| <= STACK_SIZE && PlainAll(st[..c.nvars]) }

  function Locals(c: Code, st: seq<Var>): seq<Var>
    requires c.nvars <= |st|
  {
    st[..c.nvars]
  }

  // ---------------------------------------------------------------- one instruction each

  /** From s the machine comes to end with the value r on top of st, or fails as r does. */
  ghost predicate Leaves(c: Code, s: State, st: seq<Var>, r: Res, end: nat) {
    match r
    case V(v) => |st| < STACK_SIZE && Plain(v) && Goes(c, s, State(end, st + [v], Running))
    case X(e) => Fails(c, s, e)
  }

  lemma LeavesAfter(c: Code, s: State, s1: State, st: seq<Var>, r: Res, end: nat)
    requires Goes(c, s, s1) && Leaves(c, s1, st, r, end)
    ensures Leaves(c, s, st, r, end)
  {
    match r {
      case V(v) => GoesTrans(c, s, s1, State(end, st + [v], Running));
      case X(e) => FailsTrans(c, s, s1, e);
    }
  }

  /** One instruction: its words are w. */
  lemma OneStep(c: Code, at: nat, w: seq<int>, st: seq<Var>, s': State)
    requires At(c, at, w) && |w| > 0 && |w| == 1 + Operands(w[0]) && !NoOpcode(w[0])
    requires Perform(c, State(at + 1, st, Running), w[0], if |w| > 1 then w[1] else 0, if |w| > 2 then w[2] else 0) == s'
    ensures Goes(c, State(at, st, Running), s')
    ensures s'.status.Raised? ==> Fails(c, State(at, st, Running), s'.status.err)
  {
    AtWord(c, at, w);
    GoesStep(c, State(at, st, Running));
    if s'.status.Raised? { FailsStep(c, State(at, st, Running), s'.status.err); }
  }

  lemma GiveStep(c: Code, at: nat, w: seq<int>, st: seq<Var>, st': seq<Var>, r: Res)
    requires Proper(c) && At(c, at, w) && |w| == 1 && Operands(w[0]) == 0 && !NoOpcode(w[0]) && |st'| < STACK_SIZE && (r.V? ==> Plain(r.v))
    requires Perform(c, State(at + 1, st, Running), w[0], 0, 0) == Give(c, State(at + 1, st', Running), r)
    ensures Leaves(c, State(at, st, Running), st', Settle(c, r), at + 1)
  {
    OneStep(c, at, w, st, Give(c, State(at + 1, st', Running), r));
  }

  lemma PushStep(c: Code, at: nat, w: seq<int>, st: seq<Var>, v: Var)
    requires At(c, at, w) && |w| > 0 && |w| == 1 + Operands(w[0]) && !NoOpcode(w[0]) && |st| <= STACK_SIZE && Plain(v)
    requires Perform(c, State(at + 1, st, Running), w[0], if |w| > 1 then w[1] else 0, if |w| > 2 then w[2] else 0)
             == Push(State(at + |w|, st, Running), v)
    ensures Leaves(c, State(at, st, Running), st, Pushed(v, |st|), at + |w|)
  {
    OneStep(c, at, w, st, Push(State(at + |w|, st, Running), v));
  }

  lemma NumStep(c: Code, at: nat, n: int, st: seq<Var>)
    requires At(c, at, [NUMPUSH, n]) && |st| <= STACK_SIZE
    ensures Leaves(c, State(at, st, Running), st, Pushed(Num(n), |st|), at + 2)
  {
    PushStep(c, at, [NUMPUSH, n], st, Num(n));
  }

  lemma StrStep(c: Code, at: nat, n: int, st: seq<Var>)
    requires At(c, at, [STRPUSH, n]) && |st| <= STACK_SIZE
    ensures Leaves(c, State(at, st, Running), st, Pushed(Str(c.syms(n)), |st|), at + 2)
  {
    PushStep(c, at, [STRPUSH, n], st, Str(c.syms(n)));
  }

  lemma ObjStep(c: Code, at: nat, id: int, server: int, st: seq<Var>)
    requires At(c, at, [OBJPUSH, id, server]) && |st| <= STACK_SIZE
    ensures Leaves(c, State(at, st, Running), st, Pushed(Obj(id, server), |st|), at + 3)
  {
    PushStep(c, at, [OBJPUSH, id, server], st, Obj(id, server));
  }

  lemma ErrStep(c: Code, at: nat, n: int, st: seq<Var>)
    requires At(c, at, [ERRPUSH, n]) && |st| <= STACK_SIZE
    ensures Leaves(c, State(at, st, Running), st, Pushed(Var.Err(n), |st|), at + 2)
  {
    PushStep(c, at, [ERRPUSH, n], st, Var.Err(n));
  }

  lemma LocalStep(c: Code, at: nat, k: nat, st: seq<Var>)
    requires At(c, at, [GETLVAR, k]) && Based(c, st) && k < c.nvars
    ensures Leaves(c, State(at, st, Running), st, Pushed(Locals(c, st)[k], |st|), at + 2)
  {
    assert st[k] == Locals(c, st)[k] && PlainAt(Locals(c, st), k);
    PushStep(c, at, [GETLVAR, k], st, st[k]);
  }

  lemma NotStep(c: Code, at: nat, st: seq<Var>, v: Var)
    requires Proper(c) && At(c, at, [NOT]) && |st| < STACK_SIZE
    ensures Leaves(c, State(at, st + [v], Running), st, V(Flag(!True(v))), at + 1)
  {
    assert Drop(st + [v], 1) == st;
    GiveStep(c, at, [NOT], st + [v], st, V(Flag(!True(v))));
  }

  lemma NegateStep(c: Code, at: nat, st: seq<Var>, v: Var)
    requires Proper(c) && At(c, at, [NEGATE]) && |st| < STACK_SIZE
    ensures Leaves(c, State(at, st + [v], Running), st, Settle(c, Negated(v)), at + 1)
  {
    assert Drop(st + [v], 1) == st;
    GiveStep(c, at, [NEGATE], st + [v], st, Negated(v));
  }

  lemma PerformOp(c: Code, pc: int, op: Op, st: seq<Var>, l: Var, r: Var)
    ensures Perform(c, State(pc, st + [l] + [r], Running), Word(op), 0, 0)
            == Give(c, State(pc, st, Running), c.apply(op, l, r))
    ensures Operands(Word(op)) == 0
  {
    var st2 := st + [l] + [r];
    assert Drop(st2, 1) == st + [l] && Drop(st + [l], 1) == st && Top(st2, 1) == r && Top(st + [l], 1) == l;
    hide Perform;
    BinaryPerforms(c, State(pc, st2, Running), op);
  }

  lemma OpStep(c: Code, at: nat, op: Op, st: seq<Var>, l: Var, r: Var)
    requires Proper(c) && At(c, at, [Word(op)]) && |st| < STACK_SIZE && Plain(l) && Plain(r)
    ensures Leaves(c, State(at, st + [l] + [r], Running), st, Settle(c, c.apply(op, l, r)), at + 1)
  {
    PerformOp(c, at + 1, op, st, l, r);
    GiveStep(c, at, [Word(op)], st + [l] + [r], st, c.apply(op, l, r));
  }

  /** AND and OR: on to the right operand, or a value and away to the end. */
  lemma ShortStep(c: Code, at: nat, any: bool, end: nat, st: seq<Var>, v: Var)
    requires At(c, at, [Branch(any), end]) && |st| < STACK_SIZE
    ensures True(v) != any ==> Goes(c, State(at, st + [v], Running), State(at + 2, st, Running))
    ensures True(v) == any ==> Leaves(c, State(at, st + [v], Running), st, V(Flag(any)), end)
  {
    assert Drop(st + [v], 1) == st;
    OneStep(c, at, [Branch(any), end], st + [v],
            if True(v) != any then State(at + 2, st, Running) else State(end, st + [Flag(any)], Running));
  }

  lemma NullStep(c: Code, at: nat, op: int, st: seq<Var>)
    requires At(c, at, [op]) && op in {ENDAND, ENDOR, ELSE}
    ensures Goes(c, State(at, st, Running), State(at + 1, st, Running))
  {
    OneStep(c, at, [op], st, State(at + 1, st, Running));
  }

  lemma MarkStep(c: Code, at: nat, st: seq<Var>)
    requires At(c, at, [ARGSTART]) && |st| <= STACK_SIZE
    ensures if |st| < STACK_SIZE then Goes(c, State(at, st, Running), State(at + 1, st + [Pc(-ARGSTART)], Running))
            else Fails(c, State(at, st, Running), E_STACKOVR)
  {
    OneStep(c, at, [ARGSTART], st, Push(State(at + 1, st, Running), Pc(-ARGSTART)));
  }

  /** The innermost marker is the one the list began with. */
  lemma {:induction false} MarkerOver(st: seq<Var>, vs: seq<Var>)
    requires PlainAll(vs)
    ensures Marker(st + [Pc(-ARGSTART)] + vs) == |st|
    decreases |vs|
  {
    var all := st + [Pc(-ARGSTART)] + vs;
    if vs != [] {
      assert PlainAt(vs, |vs| - 1);
      var init := vs[..|vs| - 1];
      forall i ensures PlainAt(init, i) { assert PlainAt(vs, i); }
      assert all[..|all| - 1] == st + [Pc(-ARGSTART)] + vs[..|vs| - 1];
      MarkerOver(st, vs[..|vs| - 1]);
    }
  }

  lemma ListStep(c: Code, at: nat, st: seq<Var>, vs: seq<Var>)
    requires Proper(c) && At(c, at, [LISTPUSH]) && |st| < STACK_SIZE && PlainAll(vs)
    ensures Leaves(c, State(at, st + [Pc(-ARGSTART)] + vs, Running), st, V(List(vs)), at + 1)
  {
    var all := st + [Pc(-ARGSTART)] + vs;
    MarkerOver(st, vs);
    PlainList(List(vs));
    assert all[..|st|] == st && all[|st| + 1..] == vs;
    GiveStep(c, at, [LISTPUSH], all, st, V(List(vs)));
  }

  lemma {:induction false} AllPushed(s: State, vs: seq<Var>)
    requires s.status.Running? && |s.stack| <= STACK_SIZE
    ensures if |s.stack| + |vs| <= STACK_SIZE then PushAll(s, vs) == s.(stack := s.stack + vs)
            else PushAll(s, vs).status == Raised(E_STACKOVR)
    decreases |vs|
  {
    if vs == [] {
      assert s.stack + vs == s.stack;
    } else if |s.stack| < STACK_SIZE {
      AllPushed(Push(s, vs[0]), vs[1..]);
      assert (s.stack + [vs[0]]) + vs[1..] == s.stack + vs;
    } else {
      StaysRaised(Push(s, vs[0]), vs[1..]);
    }
  }

  lemma {:induction false} StaysRaised(s: State, vs: seq<Var>)
    requires s.status == Raised(E_STACKOVR)
    ensures PushAll(s, vs).status == Raised(E_STACKOVR)
    decreases |vs|
  {
    if vs != [] { StaysRaised(Push(s, vs[0]), vs[1..]); }
  }

  lemma SpliceStep(c: Code, at: nat, st: seq<Var>, v: Var)
    requires Proper(c) && At(c, at, [SPLICE]) && |st| < STACK_SIZE && Plain(v)
    ensures LeavesArgs(c, State(at, st + [v], Running), st, Spliced(c, v, |st|), at + 1)
  {
    assert Drop(st + [v], 1) == st;
    PlainList(v);
    if v.List? {
      AllPushed(State(at + 1, st, Running), v.els);
      OneStep(c, at, [SPLICE], st + [v], PushAll(State(at + 1, st, Running), v.els));
    } else {
      GiveStep(c, at, [SPLICE], st + [v], st, X(E_TYPE));
    }
  }

  // ---------------------------------------------------------------- expressions

  ghost predicate LeavesArgs(c: Code, s: State, st: seq<Var>, r: Result<seq<Var>, int>, end: nat) {
    match r
    case Ok(vs) => |st| + |vs| <= STACK_SIZE && PlainAll(vs) && Goes(c, s, State(end, st + vs, Running))
    case Err(e) => Fails(c, s, e)
  }

  lemma UnaryJoins(c: Code, s: State, st: seq<Var>, a: Res, at: nat, op: int)
    requires Proper(c) && Leaves(c, s, st, a, at) && At(c, at, [op]) && op in {NOT, NEGATE}
    ensures Leaves(c, s, st, if a.X? then a else if op == NOT then V(Flag(!True(a.v))) else Settle(c, Negated(a.v)), at + 1)
  {
    if a.V? {
      var s1 := State(at, st + [a.v], Running);
      if op == NOT {
        NotStep(c, at, st, a.v);
        LeavesAfter(c, s, s1, st, V(Flag(!True(a.v))), at + 1);
      } else {
        NegateStep(c, at, st, a.v);
        LeavesAfter(c, s, s1, st, Settle(c, Negated(a.v)), at + 1);
      }
    }
  }

  lemma BinJoins(c: Code, s: State, st: seq<Var>, l: Var, i: nat, b: Res, at: nat, op: Op)
    requires Proper(c) && Leaves(c, s, st, V(l), i) && At(c, at, [Word(op)])
    requires Leaves(c, State(i, st + [l], Running), st + [l], b, at)
    ensures Leaves(c, s, st, if b.X? then b else Settle(c, c.apply(op, l, b.v)), at + 1)
  {
    var s1 := State(i, st + [l], Running);
    if b.X? {
      FailsTrans(c, s, s1, b.err);
    } else {
      OpStep(c, at, op, st, l, b.v);
      var r := Settle(c, c.apply(op, l, b.v));
      LeavesAfter(c, s1, State(at, st + [l] + [b.v], Running), st, r, at + 1);
      LeavesAfter(c, s, s1, st, r, at + 1);
    }
  }

  lemma ShortJoins(c: Code, s: State, st: seq<Var>, a: Res, i: nat, any: bool, b: Res, end: nat)
    requires Proper(c) && Leaves(c, s, st, a, i) && At(c, i, [Branch(any), end])
    requires Leaves(c, State(i + 2, st, Running), st, b, end) && At(c, end, [BranchEnd(any)])
    ensures Leaves(c, s, st, if a.X? then a else if True(a.v) != any then b else V(Flag(any)), end + 1)
  {
    if a.V? {
      var s1, s2 := State(i, st + [a.v], Running), State(i + 2, st, Running);
      ShortStep(c, i, any, end, st, a.v);
      var r := if True(a.v) != any then b else V(Flag(any));
      if True(a.v) != any { LeavesAfter(c, s1, s2, st, b, end); }
      LeavesAfter(c, s, s1, st, r, end);
      if r.V? {
        NullStep(c, end, BranchEnd(any), st + [r.v]);
        GoesTrans(c, s, State(end, st + [r.v], Running), State(end + 1, st + [r.v], Running));
      }
    }
  }

  lemma ListJoins(c: Code, base: nat, st: seq<Var>, r: Result<seq<Var>, int>, at: nat)
    requires Proper(c) && At(c, base, [ARGSTART]) && At(c, at, [LISTPUSH]) && |st| <= STACK_SIZE
    requires |st| < STACK_SIZE ==>
               LeavesArgs(c, State(base + 1, st + [Pc(-ARGSTART)], Running), st + [Pc(-ARGSTART)], r, at)
    ensures Leaves(c, State(base, st, Running), st,
                   if |st| >= STACK_SIZE then X(E_STACKOVR)
                   else match r { case Ok(vs) => V(List(vs)) case Err(e) => X(e) }, at + 1)
  {
    MarkStep(c, base, st);
    if |st| < STACK_SIZE {
      var s, s1 := State(base, st, Running), State(base + 1, st + [Pc(-ARGSTART)], Running);
      match r {
        case Err(e) => FailsTrans(c, s, s1, e);
        case Ok(vs) =>
          var s2 := State(at, st + [Pc(-ARGSTART)] + vs, Running);
          GoesTrans(c, s, s1, s2);
          ListStep(c, at, st, vs);
          LeavesAfter(c, s, s2, st, V(List(vs)), at + 1);
      }
    }
  }

  lemma ArgsJoin(c: Code, s: State, st: seq<Var>, r: Result<seq<Var>, int>, i: nat, q: Result<seq<Var>, int>, end: nat)
    requires LeavesArgs(c, s, st, r, i)
    requires r.Ok? ==> LeavesArgs(c, State(i, st + r.value, Running), st + r.value, q, end)
    ensures LeavesArgs(c, s, st, if r.Err? then r else if q.Ok? then Ok(r.value + q.value) else q, end)
  {
    if r.Ok? {
      var s1 := State(i, st + r.value, Running);
      if q.Ok? {
        GoesTrans(c, s, s1, State(end, (st + r.value) + q.value, Running));
        assert (st + r.value) + q.value == st + (r.value + q.value);
        PlainJoin(r.value, q.value);
      } else {
        FailsTrans(c, s, s1, q.error);
      }
    }
  }

  lemma SpliceJoins(c: Code, s: State, st: seq<Var>, a: Res, i: nat, splice: bool)
    requires Proper(c) && Leaves(c, s, st, a, i) && (splice ==> At(c, i, [SPLICE]))
    ensures LeavesArgs(c, s, st, if a.X? then Result.Err(a.err) else if splice then Spliced(c, a.v, |st|) else Ok([a.v]),
                       i + if splice then 1 else 0)
  {
    if a.V? && splice {
      SpliceStep(c, i, st, a.v);
      var s1 := State(i, st + [a.v], Running);
      match Spliced(c, a.v, |st|) {
        case Ok(vs) => GoesTrans(c, s, s1, State(i + 1, st + vs, Running));
        case Err(e) => FailsTrans(c, s, s1, e);
      }
    }
  }

  lemma LeafGoes(c: Code, e: Expr, base: nat, st: seq<Var>)
    requires Based(c, st) && Known(e, c.nvars) && At(c, base, Code1(e, base))
    requires e.NumC? || e.StrC? || e.ObjC? || e.ErrC? || e.Local?
    ensures Leaves(c, State(base, st, Running), st, Eval(c, e, Locals(c, st), |st|), base + Len(e))
  {
    match e {
      case NumC(n) => NumStep(c, base, n, st);
      case StrC(sym) => StrStep(c, base, sym, st);
      case ObjC(id, server) => ObjStep(c, base, id, server, st);
      case ErrC(err) => ErrStep(c, base, err, st);
      case Local(k) => LocalStep(c, base, k, st);
    }
  }

  /** Running the words of e leaves the value of e. */
  lemma {:induction false} EvalGoes(c: Code, e: Expr, base: nat, st: seq<Var>) returns (a: Res)
    requires Proper(c) && Based(c, st) && Known(e, c.nvars) && At(c, base, Code1(e, base))
    ensures a == Eval(c, e, Locals(c, st), |st|) && Leaves(c, State(base, st, Running), st, a, base + Len(e))
    decreases e, 1
  {
    hide Eval, Len;
    match e {
      case Bin(op, l, r) =>
        assert Code1(e, base) == Code1(l, base) + Code1(r, base + Len(l)) + [Word(op)];
        a := BinGoes(c, e, op, l, r, base, st);
      case Not(x) => a := UnaryGoes(c, e, x, NOT, base, st);
      case Neg(x) => a := UnaryGoes(c, e, x, NEGATE, base, st);
      case Short(any, l, r) =>
        assert Code1(e, base) == Code1(l, base) + [Branch(any), base + Len(l) + 2 + Len(r)]
                                 + Code1(r, base + Len(l) + 2) + [BranchEnd(any)];
        a := ShortGoes(c, e, any, l, r, base, st);
      case ListC(args) => a := ListGoes(c, e, args, base, st);
      case _ =>
        LeafGoes(c, e, base, st);
        a := Eval(c, e, Locals(c, st), |st|);
    }
  }

  lemma {:induction false} UnaryGoes(c: Code, e: Expr, x: Expr, op: int, base: nat, st: seq<Var>) returns (a: Res)
    requires Proper(c) && Based(c, st) && Known(x, c.nvars) && At(c, base, Code1(x, base) + [op])
    requires (e == Not(x) && op == NOT) || (e == Neg(x) && op == NEGATE)
    ensures a == Eval(c, e, Locals(c, st), |st|) && Leaves(c, State(base, st, Running), st, a, base + Len(x) + 1)
    decreases e, 0
  {
    AtSplit(c, base, Code1(x, base), [op]);
    var v := EvalGoes(c, x, base, st);
    UnaryJoins(c, State(base, st, Running), st, v, base + Len(x), op);
    a := if v.X? then v else if op == NOT then V(Flag(!True(v.v))) else Settle(c, Negated(v.v));
  }

  lemma {:induction false} BinGoes(c: Code, e: Expr, op: Op, l: Expr, r: Expr, base: nat, st: seq<Var>) returns (a: Res)
    requires Proper(c) && Based(c, st) && Known(l, c.nvars) && Known(r, c.nvars) && e == Bin(op, l, r)
    requires At(c, base, Code1(l, base) + Code1(r, base + Len(l)) + [Word(op)])
    ensures a == Eval(c, e, Locals(c, st), |st|)
    ensures Leaves(c, State(base, st, Running), st, a, base + Len(l) + Len(r) + 1)
    decreases e, 0
  {
    AtSplit3(c, base, Code1(l, base), Code1(r, base + Len(l)), [Word(op)]);
    a := EvalGoes(c, l, base, st);
    if a.V? {
      var b := EvalOver(c, r, base + Len(l), st, a.v);
      BinJoins(c, State(base, st, Running), st, a.v, base + Len(l), b, base + Len(l) + Len(r), op);
      a := if b.X? then b else Settle(c, c.apply(op, a.v, b.v));
    }
  }

  lemma {:induction false} ShortGoes(c: Code, e: Expr, any: bool, l: Expr, r: Expr, base: nat, st: seq<Var>)
      returns (a: Res)
    requires Proper(c) && Based(c, st) && Known(l, c.nvars) && Known(r, c.nvars) && e == Short(any, l, r)
    requires var i, end := base + Len(l), base + Len(l) + 2 + Len(r);
             At(c, base, Code1(l, base) + [Branch(any), end] + Code1(r, i + 2) + [BranchEnd(any)])
    ensures a == Eval(c, e, Locals(c, st), |st|)
    ensures Leaves(c, State(base, st, Running), st, a, base + Len(l) + 2 + Len(r) + 1)
    decreases e, 0
  {
    var i, end := base + Len(l), base + Len(l) + 2 + Len(r);
    AtSplit4(c, base, Code1(l, base), [Branch(any), end], Code1(r, i + 2), [BranchEnd(any)]);
    var v := EvalGoes(c, l, base, st);
    var w := EvalGoes(c, r, i + 2, st);
    ShortJoins(c, State(base, st, Running), st, v, i, any, w, end);
    a := if v.X? then v else if True(v.v) != any then w else V(Flag(any));
  }

  lemma {:induction false} ListGoes(c: Code, e: Expr, args: Args, base: nat, st: seq<Var>) returns (a: Res)
    requires Proper(c) && Based(c, st) && KnownArgs(args, c.nvars) && e == ListC(args)
    requires At(c, base, [ARGSTART] + CodeArgs(args, base + 1) + [LISTPUSH])
    ensures a == Eval(c, e, Locals(c, st), |st|)
    ensures Leaves(c, State(base, st, Running), st, a, base + 1 + LenArgs(args) + 1)
    decreases e, 0
  {
    AtSplit3(c, base, [ARGSTART], CodeArgs(args, base + 1), [LISTPUSH]);
    var r: Result<seq<Var>, int> := Result.Err(E_STACKOVR);
    if |st| < STACK_SIZE { r := ArgsOver(c, args, base + 1, st, [Pc(-ARGSTART)]); }
    ListJoins(c, base, st, r, base + 1 + LenArgs(args));
    a := if |st| >= STACK_SIZE then X(E_STACKOVR) else match r { case Ok(vs) => V(List(vs)) case Err(x) => X(x) };
  }

  /** The same with one more value on the stack. */
  lemma {:induction false} EvalOver(c: Code, e: Expr, base: nat, st: seq<Var>, v: Var) returns (a: Res)
    requires Proper(c) && Based(c, st) && |st| < STACK_SIZE && Known(e, c.nvars) && At(c, base, Code1(e, base))
    ensures a == Eval(c, e, Locals(c, st), |st| + 1)
    ensures Leaves(c, State(base, st + [v], Running), st + [v], a, base + Len(e))
    decreases e, 2
  {
    assert Locals(c, st + [v]) == Locals(c, st);
    a := EvalGoes(c, e, base, st + [v]);
  }

  lemma {:induction false} ArgsGo(c: Code, args: Args, base: nat, st: seq<Var>) returns (r: Result<seq<Var>, int>)
    requires Proper(c) && Based(c, st) && KnownArgs(args, c.nvars) && At(c, base, CodeArgs(args, base))
    ensures r == EvalArgs(c, args, Locals(c, st), |st|)
    ensures LeavesArgs(c, State(base, st, Running), st, r, base + LenArgs(args))
    decreases args, 0
  {
    match args {
      case NoArgs =>
        GoesSelf(c, State(base, st, Running));
        assert st + [] == st;
        r := Ok([]);
      case Arg(e, splice, rest) =>
        var w := if splice then [SPLICE] else [];
        var i := base + Len(e) + |w|;
        AtSplit3(c, base, Code1(e, base), w, CodeArgs(rest, i));
        r := ArgGoes(c, e, splice, base, st);
        if r.Ok? {
          var q := ArgsOver(c, rest, i, st, r.value);
          ArgsJoin(c, State(base, st, Running), st, r, i, q, i + LenArgs(rest));
          r := if q.Ok? then Ok(r.value + q.value) else q;
        }
    }
  }

  lemma {:induction false} ArgGoes(c: Code, e: Expr, splice: bool, base: nat, st: seq<Var>)
      returns (r: Result<seq<Var>, int>)
    requires Proper(c) && Based(c, st) && Known(e, c.nvars) && At(c, base, Code1(e, base))
    requires At(c, base + Len(e), if splice then [SPLICE] else [])
    ensures r == EvalArg(c, e, splice, Locals(c, st), |st|)
    ensures LeavesArgs(c, State(base, st, Running), st, r, base + Len(e) + if splice then 1 else 0)
    decreases e, 2
  {
    var a := EvalGoes(c, e, base, st);
    SpliceJoins(c, State(base, st, Running), st, a, base + Len(e), splice);
    r := if a.X? then Result.Err(a.err) else if splice then Spliced(c, a.v, |st|) else Ok([a.v]);
  }

  lemma {:induction false} ArgsOver(c: Code, args: Args, base: nat, st: seq<Var>, vs: seq<Var>)
      returns (r: Result<seq<Var>, int>)
    requires Proper(c) && Based(c, st) && |st| + |vs| <= STACK_SIZE
    requires KnownArgs(args, c.nvars) && At(c, base, CodeArgs(args, base))
    ensures r == EvalArgs(c, args, Locals(c, st), |st| + |vs|)
    ensures LeavesArgs(c, State(base, st + vs, Running), st + vs, r, base + LenArgs(args))
    decreases args, 1
  {
    assert Locals(c, st + vs) == Locals(c, st);
    r := ArgsGo(c, args, base, st + vs);
  }
}

/** The machine itself (src/src/execute.c, src/src/opcodes1.c): a frame with a fixed stack, and one method
    for every opcode. Each takes the frame from one state to the next exactly as Vm says. */
module VmMachine {
  import opened Wrappers
  import opened Values
  import opened Vm
  import opened Slides

  /** The same state; when the machine has stopped, what is left on its stack does not matter. */
  ghost predicate Same(s: State, t: State) { s == t || (!s.status.Running? && s.status == t.status) }

  /** The tick limit is raised over whatever else has happened. */
  function Ticked(s: State, ticks: int, maxTicks: int): State {
    if ticks >= maxTicks then s.(status := Raised(E_TICKS)) else s
  }

  /** The machine is at a word that is no opcode, or has nowhere to go: the loop is left at once. */
  predicate Breaks(c: Code, s: State, s1: State) {
    s1.status.Lost? || (0 <= s.pc < |c.words| && NoOpcode(c.words[s.pc]))
  }

  /** execute(): instructions, counted, until the machine is no longer running. */
  function Executed(c: Code, s: State, ticks: int, maxTicks: int): State
    decreases maxTicks - ticks
  {
    if !s.status.Running? || ticks >= maxTicks then s
    else
      var s1 := Step(c, s);
      if Breaks(c, s, s1) then s1 else Executed(c, Ticked(s1, ticks + 1, maxTicks), ticks + 1, maxTicks)
  }

  lemma {:induction false} ExecutedSame(c: Code, s: State, t: State, ticks: int, maxTicks: int)
    requires Same(s, t)
    ensures Same(Executed(c, s, ticks, maxTicks), Executed(c, t, ticks, maxTicks))
  {
  }

  /** One turn of a run with ticks to spare. */
  lemma OneTurn(c: Code, s: State, ticks: int, maxTicks: int, n: nat) returns (t: State)
    requires s.status.Running? && n > 0 && ticks + 1 < maxTicks
    ensures StepN(c, s, n) == StepN(c, t, n - 1)
    ensures Executed(c, s, ticks, maxTicks) == if Breaks(c, s, t) then t else Executed(c, t, ticks + 1, maxTicks)
    ensures Breaks(c, s, t) ==> !t.status.Running?
  {
    t := Step(c, s);
  }

  /** With ticks to spare the limit changes nothing. */
  lemma {:induction false} ExecutedSteps(c: Code, s: State, ticks: int, maxTicks: int, n: nat)
    requires ticks + n < maxTicks && !StepN(c, s, n).status.Running?
    ensures Executed(c, s, ticks, maxTicks).status == StepN(c, s, n).status
    decreases n
  {
    hide Step, Ticked;
    if s.status.Running? && n > 0 {
      var t := OneTurn(c, s, ticks, maxTicks, n);
      if t.status.Running? { ExecutedSteps(c, t, ticks + 1, maxTicks, n - 1); } else { Rests(c, t, n - 1); }
    } else {
      Rests(c, s, n);
    }
  }

  /** With the last tick the method ends with E_TICKS, whatever that instruction did, unless it is no opcode. */
  lemma {:induction false} ExecutedEnds(c: Code, s: State, ticks: int, maxTicks: int, n: nat)
    requires ticks + n + 1 == maxTicks && StepN(c, s, n).status.Running?
    ensures var u := StepN(c, s, n);
            Executed(c, s, ticks, maxTicks).status == if Breaks(c, u, Step(c, u)) then Step(c, u).status else Raised(E_TICKS)
    decreases n
  {
    hide Step;
    if !s.status.Running? {
      Rests(c, s, n);
    } else if n > 0 {
      var t := OneTurn(c, s, ticks, maxTicks, n);
      if t.status.Running? { ExecutedEnds(c, t, ticks + 1, maxTicks, n - 1); } else { Rests(c, t, n - 1); }
    }
  }

  lemma {:induction false} Rests(c: Code, s: State, n: nat)
    requires !s.status.Running?
    ensures StepN(c, s, n) == s
    decreases n
  {
    if n > 0 { Rests(c, s, n - 1); }
  }

  class Frame {
    const code: Code
    const stack: array<Var>
    var sp: nat
    var pc: int
    var status: Status

    ghost predicate Valid()
      reads this
    {
      stack.Length == STACK_SIZE && sp <= STACK_SIZE && code.apply == Apply
    }

    ghost function Abs(): State
      requires Valid()
      reads this, stack
    {
      State(pc, stack[..sp], status)
    }

    /** do_method. */
    constructor (code: Code, locals: seq<Var>)
      requires |locals| < STACK_SIZE && code.apply == Apply
      ensures Valid() && fresh(stack) && this.code == code && Abs() == Start(code, locals)
    {
      this.code := code;
      stack := new Var[STACK_SIZE](i => if 0 <= i < |locals| then locals[i] else Num(0));
      pc, sp, status := 0, |locals|, Running;
      new;
      assert stack[..sp] == locals;
      PushVar(Num(-1));
    }

    // -------------------------------------------------------------- the stack

    method PushVar(v: Var)
      requires Valid()
      modifies this`sp, this`status, stack
      ensures Valid() && Abs() == Push(old(Abs()), v)
    {
      if sp >= STACK_SIZE {
        if status.Running? { status := Raised(E_STACKOVR); }
      } else {
        stack[sp] := v;
        sp := sp + 1;
        assert stack[..sp] == old(stack[..sp]) + [v];
      }
    }

    /** pop; from an empty stack it raises E_STACKUND and gives 0. */
    method Pop() returns (v: Var)
      requires Valid()
      modifies this`sp, this`status
      ensures Valid()
      ensures old(sp) > 0 ==> sp == old(sp) - 1 && v == old(stack[sp - 1]) && status == old(status)
      ensures old(sp) == 0 ==> sp == 0 && v == Num(0)
                               && status == if old(status).Running? then Raised(E_STACKUND) else old(status)
    {
      if sp == 0 {
        if status.Running? { status := Raised(E_STACKUND); }
        return Num(0);
      }
      sp := sp - 1;
      v := stack[sp];
    }

    method RaiseError(e: int)
      requires Valid()
      modifies this`sp, this`status, stack
      ensures Valid() && Abs() == Raise(code, old(Abs()), e)
    {
      var was := status;
      PushVar(Var.Err(e));
      if e !in code.ignored {
        status := if was.Running? then Raised(e) else was;
      }
    }

    /** The instruction op is about to run, its own word behind it and its operands ahead. */
    ghost predicate Ready(op: int)
      reads this
    {
      Valid() && status.Running? && 0 <= pc && pc + Operands(op) <= |code.words|
    }

    ghost function Done(s: State, op: int): State
      requires 0 <= s.pc && s.pc + Operands(op) <= |code.words|
    {
      Perform(code, s, op, if Operands(op) > 0 then code.words[s.pc] else 0,
              if Operands(op) > 1 then code.words[s.pc + 1] else 0)
    }

    /** The next operand. */
    method Fetch1() returns (n: int)
      requires 0 <= pc < |code.words|
      modifies `pc
      ensures n == code.words[old(pc)] && pc == old(pc) + 1
    {
      n := code.words[pc];
      pc := pc + 1;
    }

    method PopOne() returns (v: Var)
      requires Valid() && status.Running?
      modifies this`sp, this`status
      ensures Valid()
      ensures old(sp) > 0 ==> v == Top(old(Abs()).stack, 1) && Abs() == old(Abs()).(stack := Drop(old(Abs()).stack, 1))
      ensures old(sp) == 0 ==> v == Num(0) && status == Raised(E_STACKUND)
    {
      v := Pop();
    }

    method PopTwo() returns (left: Var, right: Var)
      requires Valid() && status.Running?
      modifies this`sp, this`status
      ensures Valid()
      ensures old(sp) > 1 ==>
                var st := old(Abs()).stack;
                && right == Top(st, 1) && left == Top(Drop(st, 1), 1)
                && Abs() == old(Abs()).(stack := Drop(Drop(st, 1), 1))
      ensures old(sp) <= 1 ==> status == Raised(E_STACKUND)
    {
      right := Pop();
      left := Pop();
    }

    // -------------------------------------------------------------- operators

    method OpAdd()
      requires Ready(ADD)
      modifies this`pc, this`sp, this`status, stack
      ensures Valid() && Same(Abs(), Done(old(Abs()), ADD))
    {
      hide Perform, Find, VarEq;
      BinaryPerforms(code, Abs(), Add);
      var left, right := PopTwo();
      if !SameType(left, right) && !left.List? {
        RaiseError(E_TYPE);
      } else if left.Num? {
        PushVar(Num(left.num + right.num));
      } else if left.Str? {
        PushVar(Str(left.str + right.str));
      } else if left.List? {
        PushVar(List(if Find(right, left.els) < |left.els| then left.els else left.els + [right]));
      } else {
        RaiseError(E_TYPE);
      }
    }

    method OpSub()
      requires Ready(SUB)
      modifies this`pc, this`sp, this`status, stack
      ensures Valid() && Same(Abs(), Done(old(Abs()), SUB))
    {
      hide Perform, Find, VarEq, TakenOut;
      BinaryPerforms(code, Abs(), Sub);
      var left, right := PopTwo();
      if !SameType(left, right) && !left.List? {
        RaiseError(E_TYPE);
      } else if left.Num? {
        PushVar(Num(left.num - right.num));
      } else if left.List? {
        PushVar(List(TakenOut(left.els, Find(right, left.els))));
      } else {
        RaiseError(E_ARGTYPE);
      }
    }

    method OpMul()
      requires Ready(MUL)
      modifies this`pc, this`sp, this`status, stack
      ensures Valid() && Same(Abs(), Done(old(Abs()), MUL))
    {
      hide Perform;
      BinaryPerforms(code, Abs(), Mul);
      var left, right := PopTwo();
      if !left.Num? || !right.Num? {
        RaiseError(E_TYPE);
      } else {
        PushVar(Num(left.num * right.num));
      }
    }

    method OpDiv()
      requires Ready(DIV)
      modifies this`pc, this`sp, this`status, stack
      ensures Valid() && Same(Abs(), Done(old(Abs()), DIV))
    {
      hide Perform, Quotient;
      BinaryPerforms(code, Abs(), Div);
      var left, right := PopTwo();
      if !left.Num? || !right.Num? {
        RaiseError(E_TYPE);
      } else if right.num == 0 {
        RaiseError(E_DIV);
      } else {
        PushVar(Num(Quotient(left.num, right.num)));
      }
    }

    method OpMod()
      requires Ready(MOD)
      modifies this`pc, this`sp, this`status, stack
      ensures Valid() && Same(Abs(), Done(old(Abs()), MOD))
    {
      hide Perform, Quotient;
      BinaryPerforms(code, Abs(), Mod);
      var left, right := PopTwo();
      if !left.Num? || !right.Num? {
        RaiseError(E_TYPE);
      } else if right.num == 0 {
        RaiseError(E_DIV);
      } else {
        PushVar(Num(left.num - right.num * Quotient(left.num, right.num)));
      }
    }

    /** The four relations, which differ in nothing but the comparison with zero. */
    method OpRel(op: Op)
      requires Ready(Word(op)) && op in {Lt, Le, Gt, Ge}
      modifies this`pc, this`sp, this`status, stack
      ensures Valid() && Same(Abs(), Done(old(Abs()), Word(op)))
    {
      hide CompareText, Lower, Perform, Apply;
      BinaryPerforms(code, Abs(), op);
      assert Operands(Word(op)) == 0;
      var left, right := PopTwo();
      Related(op, left, right);
      if !SameType(left, right) {
        RaiseError(E_TYPE);
      } else if !left.Str? && !left.Num? {
        RaiseError(E_TYPE);
      } else {
        var d := if left.Num? then left.num - right.num else CompareText(left.str, right.str);
        PushVar(Flag(Relation(op, d)));
      }
    }

    method OpIn()
      requires Ready(IN)
      modifies this`pc, this`sp, this`status, stack
      ensures Valid() && Same(Abs(), Done(old(Abs()), IN))
    {
      hide Perform, Find, Within, VarEq;
      BinaryPerforms(code, Abs(), In);
      var left, right := PopTwo();
      if right.List? {
        var k := Find(left, right.els);
        PushVar(Num(if k < |right.els| then k + 1 else 0));
      } else if right.Str? {
        if !left.Str? {
          RaiseError(E_TYPE);
        } else {
          PushVar(Num(Within(left.str, right.str, 0)));
        }
      } else {
        RaiseError(E_TYPE);
      }
    }

    method OpEq()
      requires Ready(EQ)
      modifies this`pc, this`sp, this`status, stack
      ensures Valid() && Same(Abs(), Done(old(Abs()), EQ))
    {
      hide Perform, VarEq;
      BinaryPerforms(code, Abs(), Eq);
      var left, right := PopTwo();
      PushVar(Flag(VarEq(left, right)));
    }

    method OpNe()
      requires Ready(NE)
      modifies this`pc, this`sp, this`status, stack
      ensures Valid() && Same(Abs(), Done(old(Abs()), NE))
    {
      hide Perform, VarEq;
      BinaryPerforms(code, Abs(), Ne);
      var left, right := PopTwo();
      PushVar(Flag(!VarEq(left, right)));
    }

    method OpNegate()
      requires Ready(NEGATE)
      modifies this`pc, this`sp, this`status, stack
      ensures Valid() && Same(Abs(), Done(old(Abs()), NEGATE))
    {
      var arg := PopOne();
      if !arg.Num? {
        RaiseError(E_TYPE);
      } else {
        PushVar(Num(-arg.num));
      }
    }

    method OpNot()
      requires Ready(NOT)
      modifies this`pc, this`sp, this`status, stack
      ensures Valid() && Same(Abs(), Done(old(Abs()), NOT))
    {
      var arg := PopOne();
      PushVar(Flag(!True(arg)));
    }

    method OpAnd()
      requires Ready(AND)
      modifies this`pc, this`sp, this`status, stack
      ensures Valid() && Same(Abs(), Done(old(Abs()), AND))
    {
      var left := PopOne();
      if True(left) {
        pc := pc + 1;
      } else {
        PushVar(Num(0));
        pc := code.words[pc];
      }
    }

    method OpOr()
      requires Ready(OR)
      modifies this`pc, this`sp, this`status, stack
      ensures Valid() && Same(Abs(), Done(old(Abs()), OR))
    {
      var left := PopOne();
      if !True(left) {
        pc := pc + 1;
      } else {
        PushVar(Num(1));
        pc := code.words[pc];
      }
    }

    // -------------------------------------------------------------- values

    method OpNumpush()
      requires Ready(NUMPUSH)
      modifies this`pc, this`sp, this`status, stack
      ensures Valid() && Same(Abs(), Done(old(Abs()), NUMPUSH))
    {
      var n := Fetch1();
      PushVar(Num(n));
    }

    method OpStrpush()
      requires Ready(STRPUSH)
      modifies this`pc, this`sp, this`status, stack
      ensures Valid() && Same(Abs(), Done(old(Abs()), STRPUSH))
    {
      var symno := Fetch1();
      PushVar(Str(code.syms(symno)));
    }

    method OpObjpush()
      requires Ready(OBJPUSH)
      modifies this`pc, this`sp, this`status, stack
      ensures Valid() && Same(Abs(), Done(old(Abs()), OBJPUSH))
    {
      var id := Fetch1();
      var server := Fetch1();
      PushVar(Obj(id, server));
    }

    method OpErrpush()
      requires Ready(ERRPUSH)
      modifies this`pc, this`sp, this`status, stack
      ensures Valid() && Same(Abs(), Done(old(Abs()), ERRPUSH))
    {
      var e := Fetch1();
      PushVar(Var.Err(e));
    }

    method OpGetlvar()
      requires Ready(GETLVAR)
      modifies this`pc, this`sp, this`status, stack
      ensures Valid() && Same(Abs(), Done(old(Abs()), GETLVAR))
    {
      if !(0 <= code.words[pc] < sp) {
        status := Lost;
        return;
      }
      var k := Fetch1();
      PushVar(stack[k]);
    }

    method OpAsgnlvar()
      requires Ready(ASGNLVAR)
      modifies this`pc, this`sp, this`status, stack
      ensures Valid() && Same(Abs(), Done(old(Abs()), ASGNLVAR))
    {
      var v := PopOne();
      if status.Running? && !(0 <= code.words[pc] < sp) {
        status := Lost;
        return;
      }
      if status.Running? {
        var k := Fetch1();
        stack[k] := v;
        assert stack[..sp] == old(stack[..sp - 1])[k := v];
      }
    }

    method OpArgstart()
      requires Ready(ARGSTART)
      modifies this`pc, this`sp, this`status, stack
      ensures Valid() && Same(Abs(), Done(old(Abs()), ARGSTART))
    {
      PushVar(Pc(-ARGSTART));
    }

    method OpSplice()
      requires Ready(SPLICE)
      modifies this`pc, this`sp, this`status, stack
      ensures Valid() && Same(Abs(), Done(old(Abs()), SPLICE))
    {
      var list := PopOne();
      if !list.List? {
        RaiseError(E_TYPE);
      } else {
        PushEls(list.els);
      }
    }

    method PushEls(els: seq<Var>)
      requires Valid()
      modifies this`sp, this`status, stack
      ensures Valid() && Abs() == PushAll(old(Abs()), els)
    {
      var i := 0;
      while i < |els|
        invariant i <= |els| && Valid() && PushAll(Abs(), els[i..]) == PushAll(old(Abs()), els)
      {
        assert els[i..][0] == els[i] && els[i..][1..] == els[i + 1..];
        PushVar(els[i]);
        i := i + 1;
      }
    }

    /** count_args: every argument moves down over the marker, which is gone. Without a marker everything has
        moved down, and E_STACKUND is raised. */
    method CountArgs() returns (n: nat, found: bool)
      requires Valid()
      modifies this`sp, this`status, stack
      ensures Valid() && found == (Marker(old(stack[..sp])) < old(sp))
      ensures var st := old(stack[..sp]);
              var k := Marker(st);
              k < |st| ==> sp == |st| - 1 && n == |st| - 1 - k && stack[..sp] == st[..k] + st[k + 1..] && status == old(status)
      ensures !found ==> Abs() == Raise(code, old(Abs()).(stack := Slid(old(stack[..sp]), old(sp), Num(0))), E_STACKUND)
    {
      ghost var st := stack[..sp];
      n := Slide(st);
      found := n < sp;
      if found {
        MarkerIs(st, sp - n - 1);
        SlidOver(st, n, Num(0));
        sp := sp - 1;
        assert stack[..sp] == stack[..sp + 1][..sp];
      } else {
        assert Marker(st) == |st|;
        RaiseError(E_STACKUND);
      }
    }

    /** The loop of count_args, on the values st. */
    method Slide(ghost st: seq<Var>) returns (n: nat)
      requires Valid() && st == stack[..sp]
      modifies stack
      ensures n <= sp && forall j :: sp - n <= j < sp ==> st[j] != Pc(-ARGSTART)
      ensures n < sp ==> st[sp - n - 1] == Pc(-ARGSTART)
      ensures stack[..sp] == Slid(st, if n < sp then n + 1 else n, Num(0))
    {
      var pval := Num(0);
      n := 0;
      while n < sp
        invariant n <= sp && sp == |st| && stack[..sp] == Slid(st, n, Num(0))
        invariant pval == if n == 0 then Num(0) else st[sp - n]
        invariant forall j :: sp - n <= j < sp ==> st[j] != Pc(-ARGSTART)
      {
        ghost var before := stack[..sp];
        var k := sp - n - 1;
        SlidStep(st, n, Num(0));
        var sval := stack[k];
        assert sval == before[k];
        stack[k] := pval;
        assert stack[..sp] == before[k := pval];
        if sval == Pc(-ARGSTART) { return; }
        pval := sval;
        n := n + 1;
      }
    }

    /** pop_args: the topmost num values, as a list. */
    method PopArgs(num: nat) returns (list: Var)
      requires Valid() && num <= sp
      modifies this`sp
      ensures Valid() && sp == old(sp) - num && list == List(old(stack[sp - num..sp]))
    {
      var els := new Var[num](_ => Num(0));
      var i: nat := num;
      ghost var top := sp;
      while i > 0
        invariant 0 <= i <= num && sp == top - (num - i) && Valid()
        invariant forall j :: i <= j < num ==> els[j] == stack[top - num + j]
        modifies this`sp, els
      {
        sp := sp - 1;
        els[i - 1] := stack[sp];
        i := i - 1;
      }
      assert els[..] == stack[top - num..top];
      list := List(els[..]);
    }

    method OpListpush()
      requires Ready(LISTPUSH)
      modifies this`pc, this`sp, this`status, stack
      ensures Valid() && Same(Abs(), Done(old(Abs()), LISTPUSH))
    {
      hide Perform, Slid;
      ListPerforms(code, Abs());
      ghost var st := stack[..sp];
      var n, found := CountArgs();
      if !found {
        status := Lost;
        return;
      }
      var list := PopArgs(n);
      assert stack[..sp] == st[..Marker(st)] && list == List(st[Marker(st) + 1..]);
      PushVar(list);
    }

    // -------------------------------------------------------------- statements

    method OpIf()
      requires Ready(IF)
      modifies this`pc, this`sp, this`status, stack
      ensures Valid() && Same(Abs(), Done(old(Abs()), IF))
    {
      var cond := PopOne();
      if True(cond) {
        PushVar(Num(code.words[pc + 1]));
        pc := pc + 2;
      } else if code.words[pc] != 0 {
        PushVar(Num(code.words[pc + 1]));
        pc := code.words[pc];
      } else {
        pc := code.words[pc + 1];
      }
    }

    method OpElseif()
      requires Ready(ELSEIF)
      modifies this`pc, this`sp, this`status, stack
      ensures Valid() && Same(Abs(), Done(old(Abs()), ELSEIF))
    {
      var cond := PopOne();
      pc := if True(cond) then pc + 1 else code.words[pc];
    }

    method OpForrng()
      requires Ready(FORRNG)
      modifies this`pc, this`sp, this`status, stack
      ensures Valid() && Same(Abs(), Done(old(Abs()), FORRNG))
    {
      hide Perform;
      ForrngPerforms(code, Abs(), code.words[pc], code.words[pc + 1]);
      var v, upper := PopTwo();
      if !v.Num? || !upper.Num? {
        RaiseError(E_TYPE);
      } else if v.num > upper.num {
        pc := code.words[pc + 1];
      } else if !(0 <= code.words[pc] < sp) {
        if status.Running? { status := Lost; }
      } else {
        ghost var st := stack[..sp];
        stack[code.words[pc]] := v;
        assert stack[..sp] == st[code.words[pc] := v];
        PushVar(Num(v.num + 1));
        PushVar(upper);
        PushVar(Pc(pc - 1));
        pc := pc + 2;
      }
    }

    method OpPushpc()
      requires Ready(PUSHPC)
      modifies this`pc, this`sp, this`status, stack
      ensures Valid() && Same(Abs(), Done(old(Abs()), PUSHPC))
    {
      PushVar(Pc(pc - 1));
    }

    method OpWhile()
      requires Ready(WHILE)
      modifies this`pc, this`sp, this`status, stack
      ensures Valid() && Same(Abs(), Done(old(Abs()), WHILE))
    {
      var cond := PopOne();
      if status.Running? {
        if !True(cond) {
          var sentinel := PopOne();
          pc := code.words[pc];
        } else {
          pc := pc + 1;
        }
      }
    }

    method OpDo()
      requires Ready(DO)
      modifies this`pc, this`sp, this`status, stack
      ensures Valid() && Same(Abs(), Done(old(Abs()), DO))
    {
      var n := Fetch1();
      PushVar(Pc(n));
    }

    method OpDowhile()
      requires Ready(DOWHILE)
      modifies this`pc, this`sp, this`status, stack
      ensures Valid() && Same(Abs(), Done(old(Abs()), DOWHILE))
    {
      var cond := PopOne();
      if status.Running? {
        if True(cond) {
          pc := code.words[pc];
        } else {
          var sentinel := PopOne();
          pc := pc + 2;
        }
      }
    }

    method OpNull(op: int)
      requires Ready(op) && op in {ENDAND, ENDOR, ELSE}
      ensures Valid() && Same(Abs(), Done(old(Abs()), op))
    {
    }

    method OpPop()
      requires Ready(POP)
      modifies this`pc, this`sp, this`status, stack
      ensures Valid() && Same(Abs(), Done(old(Abs()), POP))
    {
      var v := PopOne();
    }

    method OpReturn()
      requires Ready(T_RETURN)
      modifies this`pc, this`sp, this`status, stack
      ensures Valid() && Same(Abs(), Done(old(Abs()), T_RETURN))
    {
      var v := PopOne();
      if status.Running? { status := Stopped(v); }
    }

    method OpStop()
      requires Ready(STOP)
      modifies this`pc, this`sp, this`status, stack
      ensures Valid() && Same(Abs(), Done(old(Abs()), STOP))
    {
      var newpc := PopOne();
      if status.Running? {
        if !newpc.Pc? && !newpc.Num? {
          status := Raised(E_INTERNAL);
        } else {
          var n := if newpc.Num? then newpc.num else newpc.pc;
          if n < 0 && n != -ARGSTART {
            status := Stopped(Num(0));
          } else {
            pc := n;
          }
        }
      }
    }

    /** Popping until an address has been popped; from a stack without one op_break goes on popping for ever. */
    method Unwind() returns (at: int, found: bool)
      requires Valid()
      modifies this`sp
      ensures Valid() && sp <= old(sp)
      ensures match Unwound(old(stack[..sp]))
              case None => !found
              case Some((n, st)) => found && at == n && stack[..sp] == st
    {
      ghost var all := Unwound(stack[..sp]);
      while sp > 0
        invariant Valid() && sp <= old(sp) && Unwound(stack[..sp]) == all
        decreases sp
      {
        assert stack[..sp][..sp - 1] == stack[..sp - 1];
        sp := sp - 1;
        var v := stack[sp];
        if v.Pc? && v.pc >= 0 {
          return v.pc, true;
        }
      }
      return 0, false;
    }

    method UnwindLevels(level: nat) returns (at: int, found: bool)
      requires Valid()
      modifies this`sp
      ensures Valid() && sp <= old(sp)
      ensures match UnwoundTo(old(stack[..sp]), level)
              case None => !found
              case Some((n, st)) => found && at == n && stack[..sp] == st
    {
      ghost var all := UnwoundTo(stack[..sp], level);
      at, found := 0, false;
      var left: nat := level;
      while left > 0
        invariant 0 <= left <= level && Valid() && sp <= old(sp)
        invariant left > 0 ==> UnwoundTo(stack[..sp], left) == all
        invariant left == 0 && level > 0 ==> found && all == Some((at, stack[..sp]))
        invariant level == 0 ==> !found
      {
        at, found := Unwind();
        if !found {
          return;
        }
        left := left - 1;
      }
    }

    method OpBreak()
      requires Ready(BREAK)
      modifies this`pc, this`sp, this`status, stack
      ensures Valid() && Same(Abs(), Done(old(Abs()), BREAK))
    {
      var level := Fetch1();
      if level <= 0 {
        status := Lost;
        return;
      }
      var at, found := UnwindLevels(level);
      if !found || !(0 <= at < |code.words|) {
        status := Lost;
      } else if code.words[at] == FORRNG {
        if at + 2 >= |code.words| {
          status := Lost;
        } else {
          var current, upper := PopTwo();
          pc := code.words[at + 2];
        }
      } else if code.words[at] == DOWHILE {
        pc := at + 3;
      } else if code.words[at] == PUSHPC {
        var k := at;
        while k < |code.words| && code.words[k] != WHILE
          invariant at <= k <= |code.words| && ScanWhile(code.words, k) == ScanWhile(code.words, at)
        {
          k := k + 1;
        }
        if k + 1 >= |code.words| {
          status := Lost;
        } else {
          pc := code.words[k + 1];
        }
      } else {
        status := Lost;
      }
    }

    method OpContinue()
      requires Ready(CONTINUE)
      modifies this`pc, this`sp, this`status, stack
      ensures Valid() && Same(Abs(), Done(old(Abs()), CONTINUE))
    {
      var level := Fetch1();
      if level <= 0 {
        status := Lost;
        return;
      }
      var at, found := UnwindLevels(level);
      if !found {
        status := Lost;
      } else if 0 <= at < |code.words| && code.words[at] == DOWHILE {
        if at + 2 >= |code.words| {
          status := Lost;
        } else {
          PushVar(Pc(at));
          pc := code.words[at + 2];
        }
      } else {
        pc := at;
      }
    }

    // -------------------------------------------------------------- execute

    /** One turn of the loop in execute(): the opcode is looked up and its method called. */
    method StepOnce()
      requires Valid() && status.Running?
      modifies this`pc, this`sp, this`status, stack
      ensures Valid() && Same(Abs(), Step(code, old(Abs())))
    {
      if 0 <= pc < |code.words| && NoOpcode(code.words[pc]) {
        status := Raised(E_INTERNAL);
        return;
      }
      if pc < 0 || pc >= |code.words| || pc + Operands(code.words[pc]) >= |code.words| {
        status := Lost;
        return;
      }
      var op := code.words[pc];
      pc := pc + 1;
      Dispatch(op);
    }

    method Dispatch(op: int)
      requires Ready(op)
      modifies this`pc, this`sp, this`status, stack
      ensures Valid() && Same(Abs(), Done(old(Abs()), op))
    {
      hide Perform;
      if op == NUMPUSH { OpNumpush(); }
      else if op == STRPUSH { OpStrpush(); }
      else if op == OBJPUSH { OpObjpush(); }
      else if op == ERRPUSH { OpErrpush(); }
      else if op == GETLVAR { OpGetlvar(); }
      else if op == PUSHPC { OpPushpc(); }
      else if op == ARGSTART { OpArgstart(); }
      else if op == DO { OpDo(); }
      else if op == ENDAND || op == ENDOR || op == ELSE { OpNull(op); }
      else if op == BREAK { OpBreak(); }
      else if op == CONTINUE { OpContinue(); }
      else if op == LISTPUSH { OpListpush(); }
      else { DispatchOne(op); }
    }

    /** The opcodes that pop at least one value. */
    method DispatchOne(op: int)
      requires Ready(op)
      requires op !in {NUMPUSH, STRPUSH, OBJPUSH, ERRPUSH, GETLVAR, PUSHPC, ARGSTART, DO, ENDAND, ENDOR, ELSE, BREAK,
                       CONTINUE, LISTPUSH}
      modifies this`pc, this`sp, this`status, stack
      ensures Valid() && Same(Abs(), Done(old(Abs()), op))
    {
      hide Perform;
      if op == NOT { OpNot(); }
      else if op == NEGATE { OpNegate(); }
      else if op == AND { OpAnd(); }
      else if op == OR { OpOr(); }
      else if op == SPLICE { OpSplice(); }
      else if op == POP { OpPop(); }
      else if op == ASGNLVAR { OpAsgnlvar(); }
      else if op == T_RETURN { OpReturn(); }
      else if op == IF { OpIf(); }
      else if op == ELSEIF { OpElseif(); }
      else if op == WHILE { OpWhile(); }
      else if op == DOWHILE { OpDowhile(); }
      else if op == STOP { OpStop(); }
      else if op == FORRNG { OpForrng(); }
      else if op == ADD { OpAdd(); }
      else if op == SUB { OpSub(); }
      else if op == MUL { OpMul(); }
      else if op == DIV { OpDiv(); }
      else if op == MOD { OpMod(); }
      else if op == EQ { OpEq(); }
      else if op == NE { OpNe(); }
      else if op == LT { OpRel(Lt); }
      else if op == LE { OpRel(Le); }
      else if op == GT { OpRel(Gt); }
      else if op == GE { OpRel(Ge); }
      else if op == IN { OpIn(); }
      else { OpUnknown(op); }
    }

    /** Opcodes outside this model. */
    method OpUnknown(op: int)
      requires Ready(op)
      requires op !in {NUMPUSH, STRPUSH, OBJPUSH, ERRPUSH, GETLVAR, PUSHPC, ARGSTART, DO, ENDAND, ENDOR, ELSE, BREAK,
                       CONTINUE, LISTPUSH}
      requires op !in {NOT, NEGATE, AND, OR, SPLICE, POP, ASGNLVAR, T_RETURN, IF, ELSEIF, WHILE, DOWHILE, STOP, FORRNG}
      requires OpOf(op).None?
      modifies this`status
      ensures Valid() && Same(Abs(), Done(old(Abs()), op))
    {
      if sp < 2 {
        status := Raised(E_STACKUND);
      } else {
        status := Lost;
      }
    }

    /** execute(): the machine runs until it stops, or the task has used up its ticks. */
    method Execute(ticks: int, maxTicks: int)
      requires Valid()
      modifies this`pc, this`sp, this`status, stack
      ensures Valid() && Same(Abs(), Executed(code, old(Abs()), ticks, maxTicks))
    {
      hide Step;
      var t := ticks;
      while status.Running? && t < maxTicks
        invariant Valid() && t >= ticks
        invariant Same(Executed(code, Abs(), t, maxTicks), Executed(code, old(Abs()), ticks, maxTicks))
        decreases maxTicks - t
      {
        ghost var before := Abs();
        var astray := 0 <= pc < |code.words| && NoOpcode(code.words[pc]);
        StepOnce();
        t := t + 1;
        if astray || status.Lost? {
          return;
        }
        if t >= maxTicks {
          status := Raised(E_TICKS);
        }
        ExecutedSame(code, Abs(), Ticked(Step(code, before), t, maxTicks), t, maxTicks);
      }
    }
  }

  lemma Related(op: Op, l: Var, r: Var)
    requires op in {Lt, Le, Gt, Ge}
    ensures Apply(op, l, r) ==
            if !SameType(l, r) || (!l.Str? && !l.Num?) then X(E_TYPE)
            else V(Flag(Relation(op, if l.Num? then l.num - r.num else CompareText(l.str, r.str))))
  {
  }

  lemma {:induction false} MarkerIs(st: seq<Var>, k: nat)
    requires k < |st| && st[k] == Pc(-ARGSTART) && forall j :: k < j < |st| ==> st[j] != Pc(-ARGSTART)
    ensures Marker(st) == k
  {
    assert Marker(st) < |st| ==> st[Marker(st)] == Pc(-ARGSTART);
    if k < |st| - 1 { MarkerIs(st[..|st| - 1], k); }
  }
}

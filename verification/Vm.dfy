/** The stack machine that runs compiled methods (src/src/execute.c, src/src/opcodes1.c): one
    instruction as a function on its state. The opcodes here are those of expressions without names
    or messages, and of the structured statements. */
module Vm {
  import opened Wrappers
  import opened Values

  const STACK_SIZE := 128

  const E_TYPE := 1
  const E_DIV := 4
  const E_STACKUND := 16
  const E_STACKOVR := 17
  const E_INTERNAL := 18
  const E_ARGTYPE := 20
  const E_TICKS := 22

  /** The errors that a method can neither ignore nor catch. */
  const NO_IGNORE: set<int> := {E_STACKUND, E_STACKOVR, E_INTERNAL, E_TICKS}

  const OR := 260
  const AND := 261
  const IN := 262
  const EQ := 263
  const NE := 264
  const LT := 265
  const LE := 266
  const GT := 267
  const GE := 268
  const NOT := 269
  const NEGATE := 270
  const IF := 276
  const ELSE := 277
  const ELSEIF := 278
  const T_RETURN := 285
  const CONTINUE := 286
  const BREAK := 287
  const STOP := 305
  const ADD := 308
  const SUB := 309
  const MUL := 310
  const DIV := 311
  const MOD := 312
  const GETLVAR := 321
  const ASGNLVAR := 324
  const POP := 327
  const OBJPUSH := 331
  const NUMPUSH := 332
  const STRPUSH := 333
  const LISTPUSH := 334
  const ERRPUSH := 336
  const ENDAND := 392
  const ENDOR := 393
  const FORRNG := 396
  const DO := 397
  const DOWHILE := 398
  const WHILE := 399
  const PUSHPC := 401
  const SPLICE := 404
  const ARGSTART := 405

  // ---------------------------------------------------------------- operators

  datatype Op = Add | Sub | Mul | Div | Mod | Eq | Ne | Lt | Le | Gt | Ge | In

  function Word(op: Op): int {
    match op
    case Add => ADD case Sub => SUB case Mul => MUL case Div => DIV case Mod => MOD
    case Eq => EQ case Ne => NE case Lt => LT case Le => LE case Gt => GT case Ge => GE case In => IN
  }

  function OpOf(word: int): Option<Op> {
    if word == ADD then Some(Add) else if word == SUB then Some(Sub) else if word == MUL then Some(Mul)
    else if word == DIV then Some(Div) else if word == MOD then Some(Mod) else if word == EQ then Some(Eq)
    else if word == NE then Some(Ne) else if word == LT then Some(Lt) else if word == LE then Some(Le)
    else if word == GT then Some(Gt) else if word == GE then Some(Ge) else if word == IN then Some(In) else None
  }

  /** ISTRUE. */
  predicate True(v: Var) {
    match v
    case Num(n) => n != 0
    case Str(s) => s != []
    case Obj(id, _) => id >= 0
    case List(els) => els != []
    case _ => false
  }

  predicate SameType(a: Var, b: Var) {
    a.Str? == b.Str? && a.Num? == b.Num? && a.Obj? == b.Obj? && a.List? == b.List? && a.Map? == b.Map?
    && a.Err? == b.Err? && a.Pc? == b.Pc?
  }

  /** Division as C does it, towards zero. */
  function Quotient(a: int, b: int): int
    requires b != 0
  {
    if (a < 0) == (b < 0) then Abs(a) / Abs(b) else -(Abs(a) / Abs(b))
  }

  function Abs(a: int): nat { if a < 0 then -a else a }

  /** The place of v in a list, or its length. */
  function Find(v: Var, els: seq<Var>): (k: nat)
    ensures k <= |els|
  {
    if els == [] then 0 else if VarEq(v, els[0]) then 0 else 1 + Find(v, els[1..])
  }

  /** Below, at or above zero as s comes before, with or after t, ignoring case. */
  function CompareText(s: string, t: string): int {
    if s == [] then (if t == [] then 0 else -1)
    else if t == [] then 1
    else
      var d := Lower(s[0]) as int - Lower(t[0]) as int;
      if d != 0 then d else CompareText(s[1..], t[1..])
  }

  /** Where s first stands in t, from place i on and counted from 1, ignoring case; 0 when nowhere. */
  function Within(s: string, t: string, i: nat): nat
    requires i <= |t|
    decreases |t| - i
  {
    if i == |t| then 0
    else if i + |s| <= |t| && SameText(s, t[i..i + |s|]) then i + 1
    else Within(s, t, i + 1)
  }

  function Flag(b: bool): Var { Num(if b then 1 else 0) }

  function TakenOut(els: seq<Var>, k: nat): seq<Var> { if k < |els| then els[..k] + els[k + 1..] else els }

  datatype Res = V(v: Var) | X(err: int)

  function Relation(op: Op, d: int): bool {
    match op case Lt => d < 0 case Le => d <= 0 case Gt => d > 0 case Ge => d >= 0 case _ => false
  }

  function Apply(op: Op, l: Var, r: Var): Res {
    match op
    case Add =>
      if !SameType(l, r) && !l.List? then X(E_TYPE)
      else if l.Num? then V(Num(l.num + r.num))
      else if l.Str? then V(Str(l.str + r.str))
      else if l.List? then V(List(if Find(r, l.els) < |l.els| then l.els else l.els + [r]))
      else X(E_TYPE)
    case Sub =>
      if !SameType(l, r) && !l.List? then X(E_TYPE)
      else if l.Num? then V(Num(l.num - r.num))
      else if l.List? then V(List(TakenOut(l.els, Find(r, l.els))))
      else X(E_ARGTYPE)
    case Mul => if !l.Num? || !r.Num? then X(E_TYPE) else V(Num(l.num * r.num))
    case Div =>
      if !l.Num? || !r.Num? then X(E_TYPE) else if r.num == 0 then X(E_DIV) else V(Num(Quotient(l.num, r.num)))
    case Mod =>
      if !l.Num? || !r.Num? then X(E_TYPE)
      else if r.num == 0 then X(E_DIV) else V(Num(l.num - r.num * Quotient(l.num, r.num)))
    case Eq => V(Flag(VarEq(l, r)))
    case Ne => V(Flag(!VarEq(l, r)))
    case In =>
      if r.List? then V(Num(if Find(l, r.els) < |r.els| then Find(l, r.els) + 1 else 0))
      else if !r.Str? || !l.Str? then X(E_TYPE)
      else V(Num(Within(l.str, r.str, 0)))
    case _ =>
      if !SameType(l, r) then X(E_TYPE)
      else if l.Num? then V(Flag(Relation(op, l.num - r.num)))
      else if l.Str? then V(Flag(Relation(op, CompareText(l.str, r.str))))
      else X(E_TYPE)
  }

  function Negated(v: Var): Res { if v.Num? then V(Num(-v.num)) else X(E_TYPE) }

  // ---------------------------------------------------------------- the machine

  /** A method: its words, its symbols, how many locals it has, and the errors it ignores. What the
      operators compute is kept apart; it is Apply for a standard method. */
  datatype Code = Code(words: seq<int>, syms: int -> string, nvars: nat, ignored: set<int>,
                       apply: (Op, Var, Var) -> Res)

  /** No program counter in the value. */
  ghost predicate Plain(v: Var) {
    !v.Pc? && (v.List? ==> forall i :: 0 <= i < |v.els| ==> Plain(v.els[i]))
  }

  ghost predicate Proper(c: Code) {
    && c.ignored !! NO_IGNORE && c.nvars < STACK_SIZE
    && forall op, l, r :: Plain(l) && Plain(r) && c.apply(op, l, r).V? ==> Plain(c.apply(op, l, r).v)
  }

  /** The operators keep to values. */
  lemma StandardProper(c: Code)
    requires c.ignored !! NO_IGNORE && c.nvars < STACK_SIZE && c.apply == Apply
    ensures Proper(c)
  {
    forall op, l, r | Plain(l) && Plain(r) && c.apply(op, l, r).V? ensures Plain(c.apply(op, l, r).v) {
      ApplyPlain(op, l, r);
    }
  }

  lemma ApplyPlain(op: Op, l: Var, r: Var)
    requires Plain(l) && Plain(r)
    ensures Apply(op, l, r).V? ==> Plain(Apply(op, l, r).v)
  {
  }

  datatype Status =
    | Running
    | Stopped(ret: Var)
    | Raised(err: int)
    | Lost  // an opcode outside this model, a word that is not there, or a stack without the program counter looked for

  datatype State = State(pc: int, stack: seq<Var>, status: Status)

  function Fetch(c: Code, i: int): Option<int> { if 0 <= i < |c.words| then Some(c.words[i]) else None }

  function Lose(s: State): State { s.(status := Lost) }

  /** pop from an empty stack. */
  function Under(s: State): State { s.(status := Raised(E_STACKUND)) }

  /** push; on a full stack the value is dropped and E_STACKOVR raised. */
  function Push(s: State, v: Var): State {
    if |s.stack| >= STACK_SIZE then s.(status := if s.status.Running? then Raised(E_STACKOVR) else s.status)
    else s.(stack := s.stack + [v])
  }

  function PushAll(s: State, vs: seq<Var>): State
    decreases |vs|
  {
    if vs == [] then s else PushAll(Push(s, vs[0]), vs[1..])
  }

  /** raise: the error is pushed as a value, and unless it is ignored the method ends. */
  function Raise(c: Code, s: State, e: int): State {
    var s1 := Push(s, Var.Err(e));
    if e in c.ignored then s1 else s1.(status := if s.status.Running? then Raised(e) else s.status)
  }

  function Give(c: Code, s: State, r: Res): State {
    match r case V(v) => Push(s, v) case X(e) => Raise(c, s, e)
  }

  function Drop(st: seq<Var>, n: nat): seq<Var>
    requires n <= |st|
  {
    st[..|st| - n]
  }

  function Top(st: seq<Var>, n: nat): Var
    requires 0 < n <= |st|
  {
    st[|st| - n]
  }

  /** Where the topmost ARGSTART marker is, or |st|. */
  function Marker(st: seq<Var>): (k: nat)
    ensures k <= |st|
    ensures k < |st| ==> st[k] == Pc(-ARGSTART) && forall j :: k < j < |st| ==> st[j] != Pc(-ARGSTART)
  {
    if st == [] then 0
    else if st[|st| - 1] == Pc(-ARGSTART) then |st| - 1
    else
      var k := Marker(st[..|st| - 1]);
      if k < |st| - 1 then k else |st|
  }

  /** Popping until a program counter that is an address has been popped: the address, and what is left. */
  function Unwound(st: seq<Var>): Option<(int, seq<Var>)> {
    if st == [] then None
    else
      var v, st' := st[|st| - 1], st[..|st| - 1];
      if v.Pc? && v.pc >= 0 then Some((v.pc, st')) else Unwound(st')
  }

  /** The same, level times over. */
  function UnwoundTo(st: seq<Var>, level: nat): Option<(int, seq<Var>)>
    decreases level
  {
    if level == 0 then None
    else
      match Unwound(st)
      case None => None
      case Some((pc, st')) => if level == 1 then Some((pc, st')) else UnwoundTo(st', level - 1)
  }

  /** The first word WHILE at or after i. */
  function ScanWhile(words: seq<int>, i: nat): (k: nat)
    requires i <= |words|
    ensures i <= k <= |words|
    decreases |words| - i
  {
    if i == |words| || words[i] == WHILE then i else ScanWhile(words, i + 1)
  }

  function Break(c: Code, s: State, level: int): State {
    if level <= 0 then Lose(s)
    else
      match UnwoundTo(s.stack, level)
      case None => Lose(s)
      case Some((pc, st)) =>
        match Fetch(c, pc)
        case None => Lose(s)
        case Some(w) =>
          if w == FORRNG then
            if Fetch(c, pc + 2).None? then Lose(s)
            else if |st| < 2 then Under(s)
            else State(Fetch(c, pc + 2).value, Drop(st, 2), s.status)
          else if w == DOWHILE then State(pc + 3, st, s.status)
          else if w == PUSHPC then
            var k := ScanWhile(c.words, pc);
            if Fetch(c, k + 1).None? then Lose(s) else State(Fetch(c, k + 1).value, st, s.status)
          else Lose(s)
  }

  function Continue(c: Code, s: State, level: int): State {
    if level <= 0 then Lose(s)
    else
      match UnwoundTo(s.stack, level)
      case None => Lose(s)
      case Some((pc, st)) =>
        if Fetch(c, pc) == Some(DOWHILE) then
          if Fetch(c, pc + 2).None? then Lose(s)
          else Push(State(Fetch(c, pc + 2).value, st, s.status), Pc(pc))
        else State(pc, st, s.status)
  }

  /** The instruction op, with the program counter already past it; a and b are its operands. */
  function Perform(c: Code, s: State, op: int, a: int, b: int): State {
    var st, pc := s.stack, s.pc;
    if op == NUMPUSH then Push(s.(pc := pc + 1), Num(a))
    else if op == STRPUSH then Push(s.(pc := pc + 1), Str(c.syms(a)))
    else if op == OBJPUSH then Push(s.(pc := pc + 2), Obj(a, b))
    else if op == ERRPUSH then Push(s.(pc := pc + 1), Var.Err(a))
    else if op == GETLVAR then
      if 0 <= a < |st| then Push(s.(pc := pc + 1), st[a]) else Lose(s)
    else if op == PUSHPC then Push(s, Pc(pc - 1))
    else if op == ARGSTART then Push(s, Pc(-ARGSTART))
    else if op == DO then Push(s.(pc := pc + 1), Pc(a))
    else if op == ENDAND || op == ENDOR || op == ELSE then s
    else if op == BREAK then Break(c, s.(pc := pc + 1), a)
    else if op == CONTINUE then Continue(c, s.(pc := pc + 1), a)
    else if op == LISTPUSH then
      var k := Marker(st);
      if k < |st| then Push(s.(stack := st[..k]), List(st[k + 1..])) else Lose(s)
    else if |st| < 1 then Under(s)
    else PerformOne(c, s, op, a, b, Top(st, 1), Drop(st, 1))
  }

  /** Instructions that pop a value v, leaving st. */
  function PerformOne(c: Code, s: State, op: int, a: int, b: int, v: Var, st: seq<Var>): State {
    var pc := s.pc;
    if op == NOT then Push(s.(stack := st), Flag(!True(v)))
    else if op == NEGATE then Give(c, s.(stack := st), Negated(v))
    else if op == AND then
      if True(v) then s.(pc := pc + 1, stack := st) else Push(s.(stack := st), Num(0)).(pc := a)
    else if op == OR then
      if !True(v) then s.(pc := pc + 1, stack := st) else Push(s.(stack := st), Num(1)).(pc := a)
    else if op == SPLICE then
      if v.List? then PushAll(s.(stack := st), v.els) else Raise(c, s.(stack := st), E_TYPE)
    else if op == POP then s.(stack := st)
    else if op == ASGNLVAR then
      if 0 <= a < |st| then s.(pc := pc + 1, stack := st[a := v]) else Lose(s)
    else if op == T_RETURN then s.(stack := st, status := Stopped(v))
    else if op == IF then
      if True(v) then Push(s.(stack := st), Num(b)).(pc := pc + 2)
      else if a != 0 then Push(s.(stack := st), Num(b)).(pc := a)
      else s.(pc := b, stack := st)
    else if op == ELSEIF then s.(pc := if True(v) then pc + 1 else a, stack := st)
    else if op == WHILE then
      if True(v) then s.(pc := pc + 1, stack := st)
      else if |st| < 1 then Under(s)
      else s.(pc := a, stack := Drop(st, 1))
    else if op == DOWHILE then
      if True(v) then s.(pc := a, stack := st)
      else if |st| < 1 then Under(s)
      else s.(pc := pc + 2, stack := Drop(st, 1))
    else if op == STOP then
      if v.Num? || v.Pc? then
        var n := if v.Num? then v.num else v.pc;
        if n < 0 && n != -ARGSTART then s.(stack := st, status := Stopped(Num(0))) else s.(pc := n, stack := st)
      else s.(status := Raised(E_INTERNAL))
    else if |st| < 1 then Under(s)
    else PerformTwo(c, s, op, a, b, Top(st, 1), v, Drop(st, 1))
  }

  /** Instructions that pop the value r and, below it, the value l. */
  function PerformTwo(c: Code, s: State, op: int, a: int, b: int, l: Var, r: Var, st: seq<Var>): State {
    var pc := s.pc;
    if op == FORRNG then
      if !l.Num? || !r.Num? then Raise(c, s.(stack := st), E_TYPE)
      else if l.num > r.num then s.(pc := b, stack := st)
      else if 0 <= a < |st| then
        Push(Push(Push(s.(stack := st[a := l]), Num(l.num + 1)), r), Pc(pc - 1)).(pc := pc + 2)
      else Lose(s)
    else
      match OpOf(op)
      case Some(o) => Give(c, s.(stack := st), c.apply(o, l, r))
      case None => Lose(s)
  }

  /** A binary operator pops two values, and pushes what it makes of them or raises its error. */
  lemma BinaryPerforms(c: Code, s: State, op: Op)
    ensures Perform(c, s, Word(op), 0, 0) ==
            var st := s.stack;
            if |st| < 2 then Under(s)
            else Give(c, s.(stack := Drop(Drop(st, 1), 1)), c.apply(op, Top(Drop(st, 1), 1), Top(st, 1)))
  {
    assert OpOf(Word(op)) == Some(op);
    BinaryPops(c, s, Word(op));
    if |s.stack| > 0 { BinaryPopsMore(c, s, Word(op), Top(s.stack, 1), Drop(s.stack, 1)); }
  }

  lemma ListPerforms(c: Code, s: State)
    ensures Perform(c, s, LISTPUSH, 0, 0) ==
            var st, k := s.stack, Marker(s.stack);
            if k < |st| then Push(s.(stack := st[..k]), List(st[k + 1..])) else Lose(s)
  {
  }

  /** FORRNG pops two values as well, and goes on with both. */
  lemma ForrngPerforms(c: Code, s: State, a: int, b: int)
    ensures Perform(c, s, FORRNG, a, b) ==
            var st := s.stack;
            if |st| < 2 then Under(s) else PerformTwo(c, s, FORRNG, a, b, Top(Drop(st, 1), 1), Top(st, 1), Drop(Drop(st, 1), 1))
  {
    hide PerformTwo, Break, Continue, Marker, Push, PushAll, Raise;
  }

  lemma BinaryPops(c: Code, s: State, w: int)
    requires OpOf(w).Some?
    ensures Perform(c, s, w, 0, 0) ==
            if |s.stack| < 1 then Under(s) else PerformOne(c, s, w, 0, 0, Top(s.stack, 1), Drop(s.stack, 1))
  {
    hide PerformOne, PerformTwo, Break, Continue, Marker, Push;
  }

  lemma BinaryPopsMore(c: Code, s: State, w: int, v: Var, st: seq<Var>)
    requires OpOf(w).Some?
    ensures PerformOne(c, s, w, 0, 0, v, st) ==
            if |st| < 1 then Under(s) else Give(c, s.(stack := Drop(st, 1)), c.apply(OpOf(w).value, Top(st, 1), v))
  {
    hide Push, PushAll, Give, Raise, True, Negated;
  }

  /** How many of the words after an opcode it reads. */
  function Operands(op: int): nat {
    if op in {NUMPUSH, STRPUSH, ERRPUSH, GETLVAR, DO, BREAK, CONTINUE, AND, OR, ASGNLVAR, ELSEIF, WHILE} then 1
    else if op in {OBJPUSH, IF, DOWHILE, FORRNG} then 2
    else 0
  }

  /** Words without an entry in the table of opcodes. */
  predicate NoOpcode(word: int) {
    0 <= word < OR || 271 <= word <= 275 || word == 279 || word == 281 || 283 <= word <= 284 || 288 <= word <= 289
    || 291 <= word <= 294 || word == 296 || word == 378 || word == 384 || word == 400 || 408 <= word <= 409
  }

  /** One turn of execute(). A word that is no opcode ends the method. */
  function Step(c: Code, s: State): State {
    if !s.status.Running? then s
    else if 0 <= s.pc < |c.words| && NoOpcode(c.words[s.pc]) then s.(status := Raised(E_INTERNAL))
    else if s.pc < 0 || s.pc >= |c.words| || s.pc + Operands(c.words[s.pc]) >= |c.words| then Lose(s)
    else
      var op := c.words[s.pc];
      Perform(c, s.(pc := s.pc + 1), op,
              if Operands(op) > 0 then c.words[s.pc + 1] else 0, if Operands(op) > 1 then c.words[s.pc + 2] else 0)
  }

  function StepN(c: Code, s: State, n: nat): State
    decreases n
  {
    if n == 0 then s else StepN(c, Step(c, s), n - 1)
  }

  /** do_method: the locals, the terminator, and the first word. */
  function Start(c: Code, locals: seq<Var>): State {
    Push(State(0, locals, Running), Num(-1))
  }
}

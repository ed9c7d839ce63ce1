/** The language of methods: expressions and structured statements, what they mean, and the words they
    are laid out in (src/src/cool.y:213-300 and 364-422). */
module VmLang {
  import opened Wrappers
  import opened Values
  import opened Vm

  datatype Expr =
    | NumC(n: int)
    | StrC(sym: int)
    | ObjC(id: int, server: int)
    | ErrC(err: int)
    | Local(k: nat)
    | Bin(op: Op, l: Expr, r: Expr)
    | Not(e: Expr)
    | Neg(e: Expr)
    | Short(any: bool, l: Expr, r: Expr)  // l && r, or when any l || r
    | ListC(args: Args)

  /** Arguments, each possibly spliced with @. */
  datatype Args = NoArgs | Arg(e: Expr, splice: bool, rest: Args)

  datatype Stmt =
    | ExprS(e: Expr)
    | Assign(k: nat, e: Expr)
    | Return(e: Expr)
    | If(cond: Expr, body: Block, alt: Alt)
    | ForRange(k: nat, lo: Expr, hi: Expr, body: Block)
    | While(cond: Expr, body: Block)
    | DoWhile(body: Block, cond: Expr)
    | BreakS(level: int)
    | ContinueS(level: int)

  datatype Block = Nil | Seq(s: Stmt, rest: Block)

  /** What follows the first part of an if. */
  datatype Alt = NoAlt | ElseIf(cond: Expr, body: Block, rest: Alt) | Else(body: Block)

  // ---------------------------------------------------------------- layout

  function Len(e: Expr): (n: nat)
    ensures n > 0
  {
    match e
    case NumC(_) => 2
    case StrC(_) => 2
    case ObjC(_, _) => 3
    case ErrC(_) => 2
    case Local(_) => 2
    case Bin(_, l, r) => Len(l) + Len(r) + 1
    case Not(x) => Len(x) + 1
    case Neg(x) => Len(x) + 1
    case Short(_, l, r) => Len(l) + 2 + Len(r) + 1
    case ListC(args) => 1 + LenArgs(args) + 1
  }

  function LenArgs(args: Args): nat {
    match args
    case NoArgs => 0
    case Arg(e, splice, rest) => Len(e) + (if splice then 1 else 0) + LenArgs(rest)
  }

  function Branch(any: bool): int { if any then OR else AND }

  function BranchEnd(any: bool): int { if any then ENDOR else ENDAND }

  /** The words of e when they begin at base. */
  function Code1(e: Expr, base: nat): (w: seq<int>)
    ensures |w| == Len(e)
  {
    match e
    case NumC(n) => [NUMPUSH, n]
    case StrC(sym) => [STRPUSH, sym]
    case ObjC(id, server) => [OBJPUSH, id, server]
    case ErrC(err) => [ERRPUSH, err]
    case Local(k) => [GETLVAR, k]
    case Bin(op, l, r) => Code1(l, base) + Code1(r, base + Len(l)) + [Word(op)]
    case Not(x) => Code1(x, base) + [NOT]
    case Neg(x) => Code1(x, base) + [NEGATE]
    case Short(any, l, r) =>
      var i, end := base + Len(l), base + Len(l) + 2 + Len(r);
      Code1(l, base) + [Branch(any), end] + Code1(r, i + 2) + [BranchEnd(any)]
    case ListC(args) => [ARGSTART] + CodeArgs(args, base + 1) + [LISTPUSH]
  }

  function CodeArgs(args: Args, base: nat): (w: seq<int>)
    ensures |w| == LenArgs(args)
  {
    match args
    case NoArgs => []
    case Arg(e, splice, rest) =>
      Code1(e, base) + (if splice then [SPLICE] else []) + CodeArgs(rest, base + Len(e) + if splice then 1 else 0)
  }

  function LenStmt(s: Stmt): (n: nat)
    ensures n > 0
  {
    match s
    case ExprS(e) => Len(e) + 1
    case Assign(_, e) => Len(e) + 2
    case Return(e) => Len(e) + 1
    case If(cond, body, alt) => Len(cond) + 3 + LenBlock(body) + 1 + LenAlt(alt) + 1
    case ForRange(_, lo, hi, body) => Len(lo) + Len(hi) + 3 + LenBlock(body) + 1
    case While(cond, body) => 1 + Len(cond) + 2 + LenBlock(body) + 1
    case DoWhile(body, cond) => 2 + LenBlock(body) + Len(cond) + 3
    case BreakS(_) => 2
    case ContinueS(_) => 2
  }

  function LenBlock(b: Block): nat {
    match b case Nil => 0 case Seq(s, rest) => LenStmt(s) + LenBlock(rest)
  }

  function LenAlt(a: Alt): nat {
    match a
    case NoAlt => 0
    case ElseIf(cond, body, rest) => Len(cond) + 2 + LenBlock(body) + 1 + LenAlt(rest)
    case Else(body) => 1 + LenBlock(body) + 1
  }

  function CodeStmt(s: Stmt, base: nat): (w: seq<int>)
    ensures |w| == LenStmt(s)
  {
    var end := base + LenStmt(s);
    match s
    case ExprS(e) => Code1(e, base) + [POP]
    case Assign(k, e) => Code1(e, base) + [ASGNLVAR, k]
    case Return(e) => Code1(e, base) + [T_RETURN]
    case If(cond, body, alt) =>
      var i := base + Len(cond);
      var next := i + 3 + LenBlock(body) + 1;
      Code1(cond, base) + [IF, next, end] + CodeBlock(body, i + 3) + [STOP] + CodeAlt(alt, next) + [STOP]
    case ForRange(k, lo, hi, body) =>
      var i := base + Len(lo) + Len(hi);
      Code1(lo, base) + Code1(hi, base + Len(lo)) + [FORRNG, k, end] + CodeBlock(body, i + 3) + [STOP]
    case While(cond, body) =>
      [PUSHPC] + Code1(cond, base + 1) + [WHILE, end] + CodeBlock(body, base + 1 + Len(cond) + 2) + [STOP]
    case DoWhile(body, cond) =>
      var at := base + 2 + LenBlock(body);
      [DO, at + Len(cond)] + CodeBlock(body, base + 2) + Code1(cond, at) + [DOWHILE, base + 2, at]
    case BreakS(level) => [BREAK, level]
    case ContinueS(level) => [CONTINUE, level]
  }

  function CodeBlock(b: Block, base: nat): (w: seq<int>)
    ensures |w| == LenBlock(b)
  {
    match b case Nil => [] case Seq(s, rest) => CodeStmt(s, base) + CodeBlock(rest, base + LenStmt(s))
  }

  function CodeAlt(a: Alt, base: nat): (w: seq<int>)
    ensures |w| == LenAlt(a)
  {
    match a
    case NoAlt => []
    case ElseIf(cond, body, rest) =>
      var i := base + Len(cond);
      var next := i + 2 + LenBlock(body) + 1;
      Code1(cond, base) + [ELSEIF, next] + CodeBlock(body, i + 2) + [STOP] + CodeAlt(rest, next)
    case Else(body) => [ELSE] + CodeBlock(body, base + 1) + [STOP]
  }

  /** A whole method. */
  function Compiled(b: Block): seq<int> { CodeBlock(b, 0) + [STOP] }

  // ---------------------------------------------------------------- meaning of expressions

  /** A push at height h. */
  function Pushed(v: Var, h: nat): Res { if h >= STACK_SIZE then X(E_STACKOVR) else V(v) }

  /** An error in an operator is the value of the operator when it is ignored. */
  function Settle(c: Code, r: Res): Res { if r.X? && r.err in c.ignored then V(Var.Err(r.err)) else r }

  /** The value of e with these locals, when h values are on the stack already. */
  function Eval(c: Code, e: Expr, locals: seq<Var>, h: nat): Res
    decreases e, 0
  {
    match e
    case NumC(n) => Pushed(Num(n), h)
    case StrC(sym) => Pushed(Str(c.syms(sym)), h)
    case ObjC(id, server) => Pushed(Obj(id, server), h)
    case ErrC(err) => Pushed(Var.Err(err), h)
    case Local(k) => Pushed(if k < |locals| then locals[k] else Num(0), h)
    case Bin(op, l, r) =>
      var a := Eval(c, l, locals, h);
      if a.X? then a
      else
        var b := Eval(c, r, locals, h + 1);
        if b.X? then b else Settle(c, c.apply(op, a.v, b.v))
    case Not(x) =>
      var a := Eval(c, x, locals, h);
      if a.X? then a else V(Flag(!True(a.v)))
    case Neg(x) =>
      var a := Eval(c, x, locals, h);
      if a.X? then a else Settle(c, Negated(a.v))
    case Short(any, l, r) =>
      var a := Eval(c, l, locals, h);
      if a.X? then a else if True(a.v) != any then Eval(c, r, locals, h) else V(Flag(any))
    case ListC(args) =>
      if h >= STACK_SIZE then X(E_STACKOVR)
      else
        match EvalArgs(c, args, locals, h + 1)
        case Ok(vs) => V(List(vs))
        case Err(e) => X(e)
  }

  function EvalArgs(c: Code, args: Args, locals: seq<Var>, h: nat): Result<seq<Var>, int>
    decreases args, 0
  {
    match args
    case NoArgs => Ok([])
    case Arg(e, splice, rest) =>
      match EvalArg(c, e, splice, locals, h)
      case Err(x) => Result.Err(x)
      case Ok(vs) =>
        match EvalArgs(c, rest, locals, h + |vs|) case Err(x) => Result.Err(x) case Ok(ws) => Ok(vs + ws)
  }

  function EvalArg(c: Code, e: Expr, splice: bool, locals: seq<Var>, h: nat): Result<seq<Var>, int>
    decreases e, 1
  {
    match Eval(c, e, locals, h)
    case X(x) => Result.Err(x)
    case V(v) => if splice then Spliced(c, v, h) else Ok([v])
  }

  /** What the list v contributes when it is spliced in at height h. */
  function Spliced(c: Code, v: Var, h: nat): Result<seq<Var>, int> {
    if !v.List? then (match Settle(c, X(E_TYPE)) case V(w) => Ok([w]) case X(x) => Result.Err(x))
    else if h + |v.els| > STACK_SIZE then Result.Err(E_STACKOVR)
    else Ok(v.els)
  }

  // ---------------------------------------------------------------- meaning of statements

  datatype Outcome =
    | Normal(locals: seq<Var>)
    | Broke(level: int, locals: seq<Var>)
    | Continued(level: int, locals: seq<Var>)
    | Returned(v: Var)
    | Failed(err: int)
    | Timeout  // a loop took more turns than allowed
    | Strayed  // a range loop ignored that its bounds are no numbers: its operands are taken for opcodes

  /** The effect of a statement at height h, when no loop takes more than fuel turns. */
  function Exec(c: Code, s: Stmt, locals: seq<Var>, h: nat, fuel: nat): Outcome
    decreases s, 0
  {
    match s
    case ExprS(e) => (match Eval(c, e, locals, h) case X(x) => Failed(x) case V(_) => Normal(locals))
    case Assign(k, e) =>
      (match Eval(c, e, locals, h)
       case X(x) => Failed(x)
       case V(v) => Normal(if k < |locals| then locals[k := v] else locals))
    case Return(e) => (match Eval(c, e, locals, h) case X(x) => Failed(x) case V(v) => Returned(v))
    case If(cond, body, alt) =>
      (match Eval(c, cond, locals, h)
       case X(x) => Failed(x)
       case V(v) => if True(v) then ExecBlock(c, body, locals, h + 1, fuel) else ExecAlt(c, alt, locals, h + 1, fuel))
    case ForRange(k, lo, hi, body) =>
      (match Eval(c, lo, locals, h)
       case X(x) => Failed(x)
       case V(v) =>
         match Eval(c, hi, locals, h + 1) case X(x) => Failed(x) case V(w) => ExecRange(c, k, v, w, body, locals, h, fuel))
    case While(cond, body) => ExecWhile(c, cond, body, locals, h, fuel)
    case DoWhile(body, cond) =>
      if h >= STACK_SIZE then Failed(E_STACKOVR) else ExecDo(c, body, cond, locals, h, fuel)
    case BreakS(level) => Broke(level, locals)
    case ContinueS(level) => Continued(level, locals)
  }

  function ExecBlock(c: Code, b: Block, locals: seq<Var>, h: nat, fuel: nat): Outcome
    decreases b, 0
  {
    match b
    case Nil => Normal(locals)
    case Seq(s, rest) =>
      var o := Exec(c, s, locals, h, fuel);
      if o.Normal? then ExecBlock(c, rest, o.locals, h, fuel) else o
  }

  function ExecAlt(c: Code, a: Alt, locals: seq<Var>, h: nat, fuel: nat): Outcome
    decreases a, 0
  {
    match a
    case NoAlt => Normal(locals)
    case ElseIf(cond, body, rest) =>
      (match Eval(c, cond, locals, h)
       case X(x) => Failed(x)
       case V(v) => if True(v) then ExecBlock(c, body, locals, h, fuel) else ExecAlt(c, rest, locals, h, fuel))
    case Else(body) => ExecBlock(c, body, locals, h, fuel)
  }

  /** What a loop makes of its body's outcome: Some(locals) to go on, or the outcome of the loop. */
  function AfterBody(o: Outcome): Result<seq<Var>, Outcome> {
    match o
    case Normal(l) => Ok(l)
    case Continued(level, l) => if level <= 1 then Ok(l) else Result.Err(Continued(level - 1, l))
    case Broke(level, l) => if level <= 1 then Result.Err(Normal(l)) else Result.Err(Broke(level - 1, l))
    case _ => Result.Err(o)
  }

  /** A range loop about to run with v, up to w. */
  function ExecRange(c: Code, k: nat, v: Var, w: Var, body: Block, locals: seq<Var>, h: nat, fuel: nat): Outcome
    decreases body, 1, fuel
  {
    if !v.Num? || !w.Num? then (if E_TYPE in c.ignored then Strayed else Failed(E_TYPE))
    else if v.num > w.num then Normal(locals)
    else if h + 3 > STACK_SIZE then Failed(E_STACKOVR)
    else if fuel == 0 then Timeout
    else
      match AfterBody(ExecBlock(c, body, if k < |locals| then locals[k := v] else locals, h + 3, fuel))
      case Err(o) => o
      case Ok(l) => ExecRange(c, k, Num(v.num + 1), w, body, l, h, fuel - 1)
  }

  function ExecWhile(c: Code, cond: Expr, body: Block, locals: seq<Var>, h: nat, fuel: nat): Outcome
    decreases body, 1, fuel
  {
    if h >= STACK_SIZE then Failed(E_STACKOVR)
    else
      match Eval(c, cond, locals, h + 1)
      case X(x) => Failed(x)
      case V(v) =>
        if !True(v) then Normal(locals)
        else if fuel == 0 then Timeout
        else
          match AfterBody(ExecBlock(c, body, locals, h + 1, fuel))
          case Err(o) => o
          case Ok(l) => ExecWhile(c, cond, body, l, h, fuel - 1)
  }

  function ExecDo(c: Code, body: Block, cond: Expr, locals: seq<Var>, h: nat, fuel: nat): Outcome
    decreases body, 1, fuel
  {
    if fuel == 0 then Timeout
    else
      match AfterBody(ExecBlock(c, body, locals, h + 1, fuel))
      case Err(o) => o
      case Ok(l) =>
        match Eval(c, cond, l, h + 1)
        case X(x) => Failed(x)
        case V(v) => if True(v) then ExecDo(c, body, cond, l, h, fuel - 1) else Normal(l)
  }
}

/** The decompiler (src/src/decode.c): it walks the words of a method, builds expression trees on a stack
    of its own, and writes the structured statements, here as a sequence of lines. */
module Decode {
  import opened Wrappers
  import opened Vm
  import opened VmLang

  const MAX_TSTACK := 100
  const MAX_TREE := 200

  /** An entry of the tree stack. Nothing stands for a tree there was no room for. */
  datatype Item = Tree(e: Expr) | SpliceTree(e: Expr) | Mark | Nothing

  datatype Line =
    | IfL(cond: Option<Expr>)
    | ElseIfL(cond: Option<Expr>)
    | ElseL
    | EndIf
    | ForL(k: int, lo: Option<Expr>, hi: Option<Expr>)
    | EndFor
    | WhileL(cond: Option<Expr>)
    | EndWhile
    | DoL
    | DoWhileL(cond: Option<Expr>)
    | ExprL(e: Option<Expr>)
    | AssignL(k: int, e: Option<Expr>)
    | ReturnL(e: Option<Expr>)
    | BreakL(level: int)
    | ContinueL(level: int)

  /** The tree stack, and how many words of tree memory are taken. */
  datatype Trees = Trees(ts: seq<Item>, tptr: nat)

  /** What a call of decompile_stmts comes to. */
  datatype Text = Text(lines: seq<Line>, trees: Trees)

  // ---------------------------------------------------------------- the tree stack

  function TPush(ts: seq<Item>, i: Item): seq<Item> {
    ts + [if |ts| >= MAX_TSTACK then Nothing else i]
  }

  /** The topmost entry; the hundredth is never given back. */
  function TTop(ts: seq<Item>): Item {
    if |ts| == 0 || |ts| >= MAX_TSTACK then Nothing else ts[|ts| - 1]
  }

  function TPop(ts: seq<Item>): seq<Item> { if |ts| == 0 then ts else ts[..|ts| - 1] }

  function Shown(i: Item): Option<Expr> { if i.Tree? then Some(i.e) else None }

  /** How many entries lie above the innermost marker. */
  function ArgCount(ts: seq<Item>): (n: nat)
    ensures n <= |ts|
  {
    if ts == [] then 0 else if ts[|ts| - 1].Mark? then 0 else 1 + ArgCount(ts[..|ts| - 1])
  }

  /** tree_count_args: the marker is gone, what was above it has moved down. Without a marker the lowest
      entry is gone. */
  function Unmarked(ts: seq<Item>): seq<Item> {
    var n := ArgCount(ts);
    if n == |ts| then (if n == 0 then [] else ts[1..]) else ts[..|ts| - n - 1] + ts[|ts| - n..]
  }

  /** The arguments of a list, from the entries of the stack. */
  function ArgsOf(items: seq<Item>): Option<Args> {
    if items == [] then Some(NoArgs)
    else
      match ArgsOf(items[1..])
      case None => None
      case Some(rest) =>
        match items[0]
        case Tree(e) => Some(Arg(e, false, rest))
        case SpliceTree(e) => Some(Arg(e, true, rest))
        case _ => None
  }

  /** The operands popped, right to left. */
  function Popped(ts: seq<Item>, n: nat): seq<Item> {
    if n == 0 then [] else Popped(TPop(ts), n - 1) + [TTop(ts)]
  }

  function PopMany(ts: seq<Item>, n: nat): seq<Item> {
    if n == 0 then ts else PopMany(TPop(ts), n - 1)
  }

  function ListItem(items: seq<Item>): Item {
    var a := ArgsOf(items);
    if a.Some? then Tree(ListC(a.value)) else Nothing
  }

  function TreeList(t: Trees): Trees {
    var n, ts := ArgCount(t.ts), Unmarked(t.ts);
    if t.tptr + n + 2 >= MAX_TREE then t.(ts := TPush(ts, Nothing))
    else
      Trees(TPush(PopMany(ts, n), ListItem(Popped(ts, n))), t.tptr + n + 2)
  }

  predicate Joins(op: int) { op == ENDAND || op == ENDOR || OpOf(op).Some? }

  function Joined(op: int, l: Expr, r: Expr): Expr
    requires Joins(op)
  {
    if op == ENDAND then Short(false, l, r) else if op == ENDOR then Short(true, l, r) else Bin(OpOf(op).value, l, r)
  }

  function TreeBinop(t: Trees, op: int): Trees
    requires Joins(op)
  {
    if t.tptr + 3 >= MAX_TREE then t.(ts := TPush(t.ts, Nothing))
    else
      var r, l := TTop(t.ts), TTop(TPop(t.ts));
      Trees(TPush(TPop(TPop(t.ts)), if l.Tree? && r.Tree? then Tree(Joined(op, l.e, r.e)) else Nothing), t.tptr + 3)
  }

  function TreeUnop(t: Trees, op: int): Trees {
    if t.tptr + 2 >= MAX_TREE then t.(ts := TPush(t.ts, Nothing))
    else
      var a := TTop(t.ts);
      var node := if !a.Tree? then Nothing
                  else if op == NOT then Tree(Not(a.e)) else if op == NEGATE then Tree(Neg(a.e)) else SpliceTree(a.e);
      Trees(TPush(TPop(t.ts), node), t.tptr + 2)
  }

  function Leaf(t: Trees, e: Expr): Trees { t.(ts := TPush(t.ts, Tree(e))) }

  // ---------------------------------------------------------------- expressions

  /** The words that only build trees: the trees after the instruction at i, and where the next one is. */
  function ExprStep(w: seq<int>, i: nat, t: Trees): Option<(Trees, nat)>
    requires i < |w| && i + Operands(w[i]) < |w|
  {
    var op := w[i];
    if op == NUMPUSH then Some((Leaf(t, NumC(w[i + 1])), i + 2))
    else if op == STRPUSH then Some((Leaf(t, StrC(w[i + 1])), i + 2))
    else if op == ERRPUSH then Some((Leaf(t, ErrC(w[i + 1])), i + 2))
    else if op == GETLVAR then if w[i + 1] < 0 then None else Some((Leaf(t, Local(w[i + 1])), i + 2))
    else if op == OBJPUSH then Some((Leaf(t, ObjC(w[i + 1], w[i + 2])), i + 3))
    else if op == LISTPUSH then if |t.ts| == 0 || |t.ts| > MAX_TSTACK then None else Some((TreeList(t), i + 1))
    else if op == NEGATE || op == NOT || op == SPLICE then Some((TreeUnop(t, op), i + 1))
    else if op == AND || op == OR then Some((t, i + 2))
    else if op == PUSHPC then Some((t, i + 1))
    else if op == ARGSTART then Some((t.(ts := TPush(t.ts, Mark)), i + 1))
    else if Joins(op) then Some((TreeBinop(t, op), i + 1))
    else None
  }

  // ---------------------------------------------------------------- statements

  /** The level of a jump as it is written: none is written for the innermost loop. */
  function Level(n: int): int { if n > 1 then n else 1 }

  function Prepend(lines: seq<Line>, r: Option<Text>): Option<Text> {
    match r case None => None case Some(t) => Some(Text(lines + t.lines, t.trees))
  }

  /** decompile_stmts from i on. None when it would leave the words, go backwards, or meet a word that is
      outside this model. */
  function Stmts(w: seq<int>, i: nat, t: Trees): Option<Text>
    decreases |w| - i
  {
    if i >= |w| || i + Operands(w[i]) >= |w| then None
    else if w[i] == STOP then Some(Text([], t))
    else
      match ExprStep(w, i, t)
      case Some((t1, j)) => Stmts(w, j, t1)
      case None => OneLine(w, i, t)
  }

  /** A word that ends an expression or begins a statement. */
  function OneLine(w: seq<int>, i: nat, t: Trees): Option<Text>
    requires i < |w| && i + Operands(w[i]) < |w|
    decreases |w| - i, 0
  {
    var op, e, less := w[i], Shown(TTop(t.ts)), Trees(TPop(t.ts), 0);
    if op == IF then IfLines(w, i, e, less)
    else if op == ELSEIF then
      if w[i + 1] <= i then None
      else
        match Stmts(w, i + 2, less)
        case None => None
        case Some(body) => Prepend([ElseIfL(e)] + body.lines, Stmts(w, w[i + 1], body.trees))
    else if op == ELSE then Prepend([ElseL], Stmts(w, i + 1, t))
    else if op == FORRNG then
      if w[i + 2] <= i then None
      else
        var lo := Shown(TTop(TPop(t.ts)));
        match Stmts(w, i + 3, Trees(TPop(TPop(t.ts)), 0))
        case None => None
        case Some(body) => Prepend([ForL(w[i + 1], lo, e)] + body.lines + [EndFor], Stmts(w, w[i + 2], body.trees))
    else if op == WHILE then
      if w[i + 1] <= i then None
      else
        match Stmts(w, i + 2, less)
        case None => None
        case Some(body) => Prepend([WhileL(e)] + body.lines + [EndWhile], Stmts(w, w[i + 1], body.trees))
    else if op == DO then Prepend([DoL], Stmts(w, i + 2, t))
    else if op == DOWHILE then Prepend([DoWhileL(e)], Stmts(w, i + 3, less))
    else if op == POP then Prepend([ExprL(e)], Stmts(w, i + 1, less))
    else if op == ASGNLVAR then Prepend([AssignL(w[i + 1], e)], Stmts(w, i + 2, less))
    else if op == T_RETURN then Prepend([ReturnL(e)], Stmts(w, i + 1, less))
    else if op == CONTINUE then Prepend([ContinueL(Level(w[i + 1]))], Stmts(w, i + 2, t))
    else if op == BREAK then Prepend([BreakL(Level(w[i + 1]))], Stmts(w, i + 2, t))
    else None
  }

  function IfLines(w: seq<int>, i: nat, e: Option<Expr>, t: Trees): Option<Text>
    requires i + 2 < |w|
    decreases |w| - i, 0, 0
  {
    var next, end := w[i + 1], w[i + 2];
    if next <= i || next >= |w| || end <= i then None
    else
      match Stmts(w, i + 3, t)
      case None => None
      case Some(body) =>
        match if w[next] != STOP then Stmts(w, next, body.trees) else Some(Text([], body.trees))
        case None => None
        case Some(more) => Prepend([IfL(e)] + body.lines + more.lines + [EndIf], Stmts(w, end, more.trees))
  }

  type Reader = (nat, Trees) -> Option<Text>

  ghost predicate ReadAt(i: nat, t: Trees) { true }

  /** read is what decompile_stmts makes of the words w. */
  ghost predicate Agrees(w: seq<int>, read: Reader) {
    forall i, t {:trigger ReadAt(i, t)} :: ReadAt(i, t) ==> read(i, t) == Stmts(w, i, t)
  }
}

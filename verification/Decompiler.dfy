/** The decompiler as it works (src/src/decode.c:246-267, 274-581, 838-1000): a stack of trees in an array, a
    counter of the tree memory taken, and the lines written so far. */
module Decompiler {
  import opened Wrappers
  import opened Vm
  import opened VmLang
  import opened Decode
  import opened DecodeProof
  import opened DecodeStmts
  import opened Slides

  /** Words that only build trees. */
  predicate Building(op: int) {
    op in {NUMPUSH, STRPUSH, ERRPUSH, GETLVAR, OBJPUSH, LISTPUSH, NEGATE, NOT, SPLICE, AND, OR, PUSHPC, ARGSTART} || Joins(op)
  }

  /** The number of entries above the innermost marker, from where the marker is. */
  lemma {:induction false} CountedFrom(ts: seq<Item>, n: nat)
    requires n <= |ts| && (n < |ts| ==> ts[|ts| - n - 1].Mark?)
    requires forall k :: |ts| - n <= k < |ts| ==> !ts[k].Mark?
    ensures ArgCount(ts) == n
    decreases n
  {
    if n > 0 { CountedFrom(ts[..|ts| - 1], n - 1); }
  }

  // ---------------------------------------------------------------- what a word comes to

  /** A word that builds trees, or stops, or one that writes. */
  lemma Divided(w: seq<int>, read: Reader, i: nat, t: Trees)
    requires Agrees(w, read) && read(i, t).Some?
    ensures i < |w| && i + Operands(w[i]) < |w|
    ensures w[i] != STOP && Building(w[i]) ==>
              ExprStep(w, i, t).Some? && read(i, t) == read(ExprStep(w, i, t).value.1, ExprStep(w, i, t).value.0)
    ensures w[i] != STOP && !Building(w[i]) ==> read(i, t) == OneLine(w, i, t)
  {
    assert ReadAt(i, t);
    if w[i] != STOP {
      if ExprStep(w, i, t).Some? {
        var n := ExprStep(w, i, t).value;
        assert ReadAt(n.1, n.0);
        OnlyBuilding(w, i, t);
      } else {
        NotBuilding(w, i, t);
      }
    }
  }

  lemma InRange(w: seq<int>, read: Reader, i: nat, t: Trees)
    requires Agrees(w, read) && read(i, t).Some?
    ensures i < |w| && i + Operands(w[i]) < |w|
  {
    assert ReadAt(i, t);
  }

  lemma AtStop(w: seq<int>, read: Reader, i: nat, t: Trees)
    requires Agrees(w, read) && read(i, t).Some? && i < |w| && w[i] == STOP
    ensures read(i, t) == Some(Text([], t))
  {
    assert ReadAt(i, t);
  }

  lemma OnlyBuilding(w: seq<int>, i: nat, t: Trees)
    requires i < |w| && i + Operands(w[i]) < |w| && ExprStep(w, i, t).Some?
    ensures Building(w[i])
  {
  }

  lemma NotBuilding(w: seq<int>, i: nat, t: Trees)
    requires i < |w| && i + Operands(w[i]) < |w| && OneLine(w, i, t).Some?
    ensures !Building(w[i])
  {
  }

  lemma Gathered(a: seq<Line>, l: Line, b: seq<Line>, c: seq<Line>)
    ensures a + [l] + b + c + [EndIf] == a + ([l] + b + c + [EndIf])
  {
  }

  function Less(t: Trees): Trees { Trees(Decode.TPop(t.ts), 0) }

  /** One line, and on with the next word. */
  lemma OneWord(w: seq<int>, read: Reader, i: nat, t: Trees)
    requires Agrees(w, read) && i < |w| && i + Operands(w[i]) < |w| && OneLine(w, i, t).Some?
    ensures var op, e := w[i], Shown(TTop(t.ts));
            && (op in {ELSE, DO} ==> OneLine(w, i, t) == Prepend([if op == DO then DoL else ElseL], read(i + 1 + Operands(op), t)))
            && (op == CONTINUE ==> OneLine(w, i, t) == Prepend([ContinueL(Level(w[i + 1]))], read(i + 2, t)))
            && (op == BREAK ==> OneLine(w, i, t) == Prepend([BreakL(Level(w[i + 1]))], read(i + 2, t)))
            && (op == DOWHILE ==> OneLine(w, i, t) == Prepend([DoWhileL(e)], read(i + 3, Less(t))))
            && (op == POP ==> OneLine(w, i, t) == Prepend([ExprL(e)], read(i + 1, Less(t))))
            && (op == ASGNLVAR ==> OneLine(w, i, t) == Prepend([AssignL(w[i + 1], e)], read(i + 2, Less(t))))
            && (op == T_RETURN ==> OneLine(w, i, t) == Prepend([ReturnL(e)], read(i + 1, Less(t))))
            && op in {IF, ELSEIF, FORRNG, WHILE, ELSE, DO, CONTINUE, BREAK, DOWHILE, POP, ASGNLVAR, T_RETURN}
  {
    var j := i + 1 + Operands(w[i]);
    assert ReadAt(j, t) && ReadAt(j, Less(t));
  }

  lemma OneWhile(w: seq<int>, read: Reader, i: nat, t: Trees)
    requires Agrees(w, read) && i + 1 < |w| && w[i] == WHILE && OneLine(w, i, t).Some?
    ensures w[i + 1] > i && read(i + 2, Less(t)).Some?
    ensures var body := read(i + 2, Less(t)).value;
            OneLine(w, i, t) == Prepend([WhileL(Shown(TTop(t.ts)))] + body.lines + [EndWhile], read(w[i + 1], body.trees))
  {
    assert ReadAt(i + 2, Less(t)) && ReadAt(w[i + 1], read(i + 2, Less(t)).value.trees);
  }

  lemma OneElseIf(w: seq<int>, read: Reader, i: nat, t: Trees)
    requires Agrees(w, read) && i + 1 < |w| && w[i] == ELSEIF && OneLine(w, i, t).Some?
    ensures w[i + 1] > i && read(i + 2, Less(t)).Some?
    ensures var body := read(i + 2, Less(t)).value;
            OneLine(w, i, t) == Prepend([ElseIfL(Shown(TTop(t.ts)))] + body.lines, read(w[i + 1], body.trees))
  {
    assert ReadAt(i + 2, Less(t)) && ReadAt(w[i + 1], read(i + 2, Less(t)).value.trees);
  }

  lemma OneFor(w: seq<int>, read: Reader, i: nat, t: Trees)
    requires Agrees(w, read) && i + 2 < |w| && w[i] == FORRNG && OneLine(w, i, t).Some?
    ensures var less := Less(Trees(Decode.TPop(t.ts), t.tptr));
            && w[i + 2] > i && read(i + 3, less).Some?
            && var body, lo := read(i + 3, less).value, Shown(TTop(Decode.TPop(t.ts)));
               OneLine(w, i, t) == Prepend([ForL(w[i + 1], lo, Shown(TTop(t.ts)))] + body.lines + [EndFor],
                                           read(w[i + 2], body.trees))
  {
    var less := Less(Trees(Decode.TPop(t.ts), t.tptr));
    assert ReadAt(i + 3, less) && ReadAt(w[i + 2], read(i + 3, less).value.trees);
  }

  lemma OneIf(w: seq<int>, read: Reader, i: nat, t: Trees)
    requires Agrees(w, read) && i + 2 < |w| && w[i] == IF && OneLine(w, i, t).Some?
    ensures i < w[i + 1] < |w| && i < w[i + 2] && read(i + 3, Less(t)).Some?
    ensures var body := read(i + 3, Less(t)).value;
            && (w[w[i + 1]] != STOP ==> read(w[i + 1], body.trees).Some?)
            && var more := if w[w[i + 1]] != STOP then read(w[i + 1], body.trees).value else Text([], body.trees);
               OneLine(w, i, t) == Prepend([IfL(Shown(TTop(t.ts)))] + body.lines + more.lines + [EndIf],
                                           read(w[i + 2], more.trees))
  {
    var body := read(i + 3, Less(t));
    assert ReadAt(i + 3, Less(t)) && ReadAt(w[i + 1], body.value.trees);
    var more := if w[w[i + 1]] != STOP then read(w[i + 1], body.value.trees).value else Text([], body.value.trees);
    assert ReadAt(w[i + 2], more.trees);
  }

  class Decompiler {
    const words: seq<int>
    const tstack: array<Item>
    var tsp: nat
    var tptr: nat
    var lines: seq<Line>

    ghost predicate Valid() reads this { tstack.Length == MAX_TSTACK }

    /** The entries pushed, those beyond the array lost. */
    ghost function Stack(): (s: seq<Item>)
      requires Valid()
      reads this, tstack
      ensures |s| == tsp
    {
      if tsp <= MAX_TSTACK then tstack[..tsp] else tstack[..] + seq(tsp - MAX_TSTACK, _ => Nothing)
    }

    ghost function Here(): Trees
      requires Valid()
      reads this, tstack
    {
      Trees(Stack(), tptr)
    }

    constructor (code: seq<int>)
      ensures Valid() && words == code && Here() == Trees([], 0) && lines == [] && fresh(tstack)
    {
      words := code;
      tstack := new Item[MAX_TSTACK](_ => Nothing);
      tsp, tptr := 0, 0;
      lines := [];
    }

    // -------------------------------------------------------------- the tree stack

    method TPush(i: Item)
      requires Valid()
      modifies this`tsp, tstack
      ensures Valid() && Stack() == Decode.TPush(old(Stack()), i)
    {
      if tsp >= MAX_TSTACK {
        tsp := tsp + 1;
      } else {
        tstack[tsp] := i;
        tsp := tsp + 1;
      }
    }

    method TPop() returns (i: Item)
      requires Valid()
      modifies this`tsp
      ensures Valid() && Stack() == Decode.TPop(old(Stack())) && i == TTop(old(Stack()))
    {
      if tsp == 0 { return Nothing; }
      if tsp >= MAX_TSTACK {
        tsp := tsp - 1;
        return Nothing;
      }
      tsp := tsp - 1;
      i := tstack[tsp];
    }

    /** tree_count_args: counts the entries above the innermost marker while moving them down over it. */
    method CountArgs() returns (count: nat)
      requires Valid() && 0 < tsp <= MAX_TSTACK
      modifies this`tsp, tstack
      ensures Valid() && count == ArgCount(old(Stack())) && Stack() == Unmarked(old(Stack()))
    {
      ghost var ts := Stack();
      count := Slide(ts);
      CountedFrom(ts, count);
      tsp := tsp - 1;
      if count < |ts| { SlidOver(ts, count, Nothing); }
      assert tstack[..tsp] == tstack[..tsp + 1][..tsp];
    }

    /** The loop of tree_count_args, on the entries ts. */
    method Slide(ghost ts: seq<Item>) returns (count: nat)
      requires Valid() && 0 < tsp <= MAX_TSTACK && ts == tstack[..tsp]
      modifies tstack
      ensures count <= tsp && forall k :: tsp - count <= k < tsp ==> !ts[k].Mark?
      ensures count < tsp ==> ts[tsp - count - 1].Mark?
      ensures tstack[..tsp] == Slid(ts, if count < tsp then count + 1 else count, Nothing)
    {
      var s := Nothing;
      count := 0;
      assert tstack[..tsp] == Slid(ts, 0, Nothing);
      hide Slid;
      while count < tsp
        invariant count <= tsp == |ts| && tstack[..tsp] == Slid(ts, count, Nothing)
        invariant forall k :: tsp - count <= k < tsp ==> !ts[k].Mark?
        invariant s == if count == 0 then Nothing else ts[tsp - count]
      {
        SlidStep(ts, count, Nothing);
        var t := Swap(tsp - count - 1, s);
        if t.Mark? { return; }
        s := t;
        count := count + 1;
      }
    }

    /** The entry at k, and s in its place. */
    method Swap(k: nat, s: Item) returns (t: Item)
      requires Valid() && k < tsp <= MAX_TSTACK
      modifies tstack
      ensures t == old(tstack[..tsp])[k] && tstack[..tsp] == old(tstack[..tsp])[k := s]
    {
      t := tstack[k];
      tstack[k] := s;
      assert tstack[..tsp] == old(tstack[..tsp])[k := s];
    }

    /** tree_args: the entries popped, the topmost one last. */
    method Args(len: nat) returns (items: seq<Item>)
      requires Valid()
      modifies this`tsp
      ensures Valid() && items == Popped(old(Stack()), len) && Stack() == PopMany(old(Stack()), len)
    {
      items := [];
      var i := 0;
      while i < len
        invariant i <= len && Popped(old(Stack()), len) == Popped(Stack(), len - i) + items
        invariant PopMany(old(Stack()), len) == PopMany(Stack(), len - i)
      {
        ghost var st := Stack();
        var t := TPop();
        assert Popped(st, len - i) == Popped(Stack(), len - i - 1) + [t];
        items := [t] + items;
        i := i + 1;
      }
    }

    method List()
      requires Valid() && 0 < tsp <= MAX_TSTACK
      modifies this`tsp, this`tptr, tstack
      ensures Valid() && Here() == TreeList(old(Here()))
    {
      hide Popped, PopMany, ArgsOf;
      var len := CountArgs();
      if tptr + len + 2 >= MAX_TREE {
        TPush(Nothing);
      } else {
        var items := Args(len);
        tptr := tptr + len + 2;
        TPush(ListItem(items));
      }
    }

    method Binop(op: int)
      requires Valid() && Joins(op)
      modifies this`tsp, this`tptr, tstack
      ensures Valid() && Here() == TreeBinop(old(Here()), op)
    {
      if tptr + 3 >= MAX_TREE {
        TPush(Nothing);
      } else {
        var r := TPop();
        var l := TPop();
        tptr := tptr + 3;
        TPush(if l.Tree? && r.Tree? then Tree(Joined(op, l.e, r.e)) else Nothing);
      }
    }

    method Unop(op: int)
      requires Valid()
      modifies this`tsp, this`tptr, tstack
      ensures Valid() && Here() == TreeUnop(old(Here()), op)
    {
      if tptr + 2 >= MAX_TREE {
        TPush(Nothing);
      } else {
        var a := TPop();
        tptr := tptr + 2;
        TPush(if !a.Tree? then Nothing
              else if op == NOT then Tree(Not(a.e)) else if op == NEGATE then Tree(Neg(a.e)) else SpliceTree(a.e));
      }
    }

    // -------------------------------------------------------------- the words

    /** The cases of decompile_stmts that build trees. */
    method Build(i: nat) returns (j: nat)
      requires Valid() && i < |words| && i + Operands(words[i]) < |words|
      requires Building(words[i]) && ExprStep(words, i, Here()).Some?
      modifies this`tsp, this`tptr, tstack
      ensures Valid() && ExprStep(words, i, old(Here())) == Some((Here(), j))
    {
      var op := words[i];
      j := i + 1 + Operands(op);
      if op == NUMPUSH {
        TPush(Tree(NumC(words[i + 1])));
      } else if op == STRPUSH {
        TPush(Tree(StrC(words[i + 1])));
      } else if op == ERRPUSH {
        TPush(Tree(ErrC(words[i + 1])));
      } else if op == GETLVAR {
        TPush(Tree(Local(words[i + 1])));
      } else if op == OBJPUSH {
        TPush(Tree(ObjC(words[i + 1], words[i + 2])));
      } else if op == LISTPUSH {
        List();
      } else if op == NEGATE || op == NOT || op == SPLICE {
        Unop(op);
      } else if op == ARGSTART {
        TPush(Mark);
      } else if Joins(op) {
        JoinsBare(op);
        Binop(op);
      }
    }

    static lemma JoinsBare(op: int)
      requires Joins(op)
      ensures Operands(op) == 0
    {
    }

    /** decompile_expr of what is on top, and the end of its tree memory. */
    method Expression() returns (e: Option<Expr>)
      requires Valid()
      modifies this`tsp, this`tptr
      ensures Valid() && Here() == Trees(Decode.TPop(old(Stack())), 0) && e == Shown(TTop(old(Stack())))
    {
      var t := TPop();
      tptr := 0;
      e := Shown(t);
    }

    method Write(l: Line)
      modifies this`lines
      ensures lines == old(lines) + [l]
    {
      lines := lines + [l];
    }

    /** decompile_stmts: one word after the other until STOP, writing lines. */
    method Statements(start: nat, ghost read: Reader)
      requires Valid() && Agrees(words, read) && read(start, Here()).Some?
      modifies this`tsp, this`tptr, this`lines, tstack
      ensures Valid() && Here() == read(start, old(Here())).value.trees
      ensures lines == old(lines) + read(start, old(Here())).value.lines
      decreases |words| - start, 1
    {
      var i := start;
      ghost var goal, done := read(start, Here()), [];
      InRange(words, read, i, Here());
      PrependNone(goal);
      while words[i] != STOP
        invariant start <= i < |words| && i + Operands(words[i]) < |words| && Valid()
        invariant read(i, Here()).Some? && goal == Prepend(done, read(i, Here())) && lines == old(lines) + done
        decreases |words| - i
      {
        ghost var before, more := done, [];
        i, more := Turn(i, read);
        done := done + more;
        PrependTwo(before, more, read(i, Here()));
        InRange(words, read, i, Here());
      }
      AtStop(words, read, i, Here());
      assert done + [] == done;
    }

    method Turn(i: nat, ghost read: Reader) returns (j: nat, ghost more: seq<Line>)
      requires Valid() && Agrees(words, read) && read(i, Here()).Some? && i < |words| && words[i] != STOP
      modifies this`tsp, this`tptr, this`lines, tstack
      ensures Valid() && i < j && lines == old(lines) + more
      ensures read(i, old(Here())) == Prepend(more, read(j, Here()))
      decreases |words| - i, 0, 3
    {
      Divided(words, read, i, Here());
      if Building(words[i]) {
        j := Build(i);
        more := [];
        PrependNone(read(j, Here()));
      } else {
        j, more := OneStatement(i, read);
      }
    }

    /** The cases that write a statement, or the start of one. */
    method OneStatement(i: nat, ghost read: Reader) returns (j: nat, ghost more: seq<Line>)
      requires Valid() && i < |words| && i + Operands(words[i]) < |words|
      requires Agrees(words, read) && OneLine(words, i, Here()).Some?
      modifies this`tsp, this`tptr, this`lines, tstack
      ensures Valid() && i < j && lines == old(lines) + more
      ensures OneLine(words, i, old(Here())) == Prepend(more, read(j, Here()))
      decreases |words| - i, 0, 2
    {
      var op := words[i];
      OneWord(words, read, i, Here());
      if op == IF {
        j, more := If(i, read);
      } else if op == ELSEIF {
        j, more := ElseIf(i, read);
      } else if op == FORRNG {
        j, more := For(i, read);
      } else if op == WHILE {
        j, more := While(i, read);
      } else {
        j, more := Single(i);
      }
    }

    /** The statements of one line. */
    method Single(i: nat) returns (j: nat, ghost more: seq<Line>)
      requires Valid() && i < |words| && i + Operands(words[i]) < |words|
      requires words[i] in {ELSE, DO, CONTINUE, BREAK, DOWHILE, POP, ASGNLVAR, T_RETURN}
      modifies this`tsp, this`tptr, this`lines
      ensures Valid() && lines == old(lines) + more && j == i + 1 + Operands(words[i])
      ensures Here() == if words[i] in {ELSE, DO, CONTINUE, BREAK} then old(Here()) else Less(old(Here()))
      ensures var op, e := words[i], Shown(TTop(old(Stack())));
              more == [if op == ELSE then ElseL else if op == DO then DoL
                       else if op == CONTINUE then ContinueL(Level(words[i + 1]))
                       else if op == BREAK then BreakL(Level(words[i + 1]))
                       else if op == DOWHILE then DoWhileL(e) else if op == POP then ExprL(e)
                       else if op == ASGNLVAR then AssignL(words[i + 1], e) else ReturnL(e)]
    {
      var op := words[i];
      j := i + 1 + Operands(op);
      var line;
      if op == ELSE {
        line := ElseL;
      } else if op == DO {
        line := DoL;
      } else if op == CONTINUE {
        line := ContinueL(Level(words[i + 1]));
      } else if op == BREAK {
        line := BreakL(Level(words[i + 1]));
      } else {
        var e := Expression();
        line := if op == DOWHILE then DoWhileL(e) else if op == POP then ExprL(e)
                else if op == ASGNLVAR then AssignL(words[i + 1], e) else ReturnL(e);
      }
      Write(line);
      more := [line];
    }

    method If(i: nat, ghost read: Reader) returns (j: nat, ghost more: seq<Line>)
      requires Valid() && i + 2 < |words| && words[i] == IF
      requires Agrees(words, read) && OneLine(words, i, Here()).Some?
      modifies this`tsp, this`tptr, this`lines, tstack
      ensures Valid() && i < j && lines == old(lines) + more
      ensures OneLine(words, i, old(Here())) == Prepend(more, read(j, Here()))
      decreases |words| - i, 0, 1
    {
      ghost var t := Here();
      OneIf(words, read, i, t);
      ghost var first := read(i + 3, Less(t)).value;
      ghost var second := if words[words[i + 1]] != STOP then read(words[i + 1], first.trees).value else Text([], first.trees);
      var e := Expression();
      Branches(i, e, first, second, read);
      j, more := words[i + 2], [IfL(e)] + first.lines + second.lines + [EndIf];
    }

    /** The lines of an if, whose condition is e. */
    method Branches(i: nat, e: Option<Expr>, ghost first: Text, ghost second: Text, ghost read: Reader)
      requires Valid() && Agrees(words, read) && i + 2 < |words| && read(i + 3, Here()) == Some(first)
      requires i < words[i + 1] < |words|
      requires words[words[i + 1]] != STOP ==> read(words[i + 1], first.trees) == Some(second)
      requires words[words[i + 1]] == STOP ==> second == Text([], first.trees)
      modifies this`tsp, this`tptr, this`lines, tstack
      ensures Valid() && Here() == second.trees
      ensures lines == old(lines) + ([IfL(e)] + first.lines + second.lines + [EndIf])
      decreases |words| - i, 0, 0
    {
      Write(IfL(e));
      Statements(i + 3, read);
      Otherwise(words[i + 1], read);
      Write(EndIf);
      Gathered(old(lines), IfL(e), first.lines, second.lines);
    }

    method Otherwise(next: nat, ghost read: Reader)
      requires Valid() && Agrees(words, read) && next < |words| && (words[next] != STOP ==> read(next, Here()).Some?)
      modifies this`tsp, this`tptr, this`lines, tstack
      ensures var r := if words[next] != STOP then read(next, old(Here())).value else Text([], old(Here()));
              Valid() && Here() == r.trees && lines == old(lines) + r.lines
      decreases |words| - next, 2
    {
      if words[next] != STOP { Statements(next, read); }
    }

    method ElseIf(i: nat, ghost read: Reader) returns (j: nat, ghost more: seq<Line>)
      requires Valid() && i + 1 < |words| && words[i] == ELSEIF
      requires Agrees(words, read) && OneLine(words, i, Here()).Some?
      modifies this`tsp, this`tptr, this`lines, tstack
      ensures Valid() && i < j && lines == old(lines) + more
      ensures OneLine(words, i, old(Here())) == Prepend(more, read(j, Here()))
      decreases |words| - i, 0, 1
    {
      ghost var t := Here();
      OneElseIf(words, read, i, Here());
      var e := Expression();
      Opened(ElseIfL(e), i + 2, read);
      j := words[i + 1];
      more := [ElseIfL(e)] + read(i + 2, Less(t)).value.lines;
    }

    /** A body after a line. */
    method Opened(first: Line, at: nat, ghost read: Reader)
      requires Valid() && Agrees(words, read) && read(at, Here()).Some?
      modifies this`tsp, this`tptr, this`lines, tstack
      ensures Valid() && Here() == read(at, old(Here())).value.trees
      ensures lines == old(lines) + ([first] + read(at, old(Here())).value.lines)
      decreases |words| - at, 2
    {
      ghost var body := read(at, Here()).value.lines;
      Write(first);
      Statements(at, read);
      assert old(lines) + [first] + body == old(lines) + ([first] + body);
    }

    /** A body between two lines. */
    method Enclosed(first: Line, at: nat, last: Line, ghost read: Reader)
      requires Valid() && Agrees(words, read) && read(at, Here()).Some?
      modifies this`tsp, this`tptr, this`lines, tstack
      ensures Valid() && Here() == read(at, old(Here())).value.trees
      ensures lines == old(lines) + ([first] + read(at, old(Here())).value.lines + [last])
      decreases |words| - at, 3
    {
      ghost var body := read(at, Here()).value.lines;
      Opened(first, at, read);
      Write(last);
      assert old(lines) + ([first] + body) + [last] == old(lines) + ([first] + body + [last]);
    }

    method While(i: nat, ghost read: Reader) returns (j: nat, ghost more: seq<Line>)
      requires Valid() && i + 1 < |words| && words[i] == WHILE
      requires Agrees(words, read) && OneLine(words, i, Here()).Some?
      modifies this`tsp, this`tptr, this`lines, tstack
      ensures Valid() && i < j && lines == old(lines) + more
      ensures OneLine(words, i, old(Here())) == Prepend(more, read(j, Here()))
      decreases |words| - i, 0, 1
    {
      ghost var t := Here();
      OneWhile(words, read, i, Here());
      var e := Expression();
      Enclosed(WhileL(e), i + 2, EndWhile, read);
      j := words[i + 1];
      more := [WhileL(e)] + read(i + 2, Less(t)).value.lines + [EndWhile];
    }

    method For(i: nat, ghost read: Reader) returns (j: nat, ghost more: seq<Line>)
      requires Valid() && i + 2 < |words| && words[i] == FORRNG
      requires Agrees(words, read) && OneLine(words, i, Here()).Some?
      modifies this`tsp, this`tptr, this`lines, tstack
      ensures Valid() && i < j && lines == old(lines) + more
      ensures OneLine(words, i, old(Here())) == Prepend(more, read(j, Here()))
      decreases |words| - i, 0, 1
    {
      ghost var t := Here();
      OneFor(words, read, i, t);
      ghost var less := Less(Trees(Decode.TPop(t.ts), t.tptr));
      var hi := TPop();
      var lo := Expression();
      Enclosed(ForL(words[i + 1], lo, Shown(hi)), i + 3, EndFor, read);
      j := words[i + 2];
      more := [ForL(words[i + 1], lo, Shown(hi))] + read(i + 3, less).value.lines + [EndFor];
    }
  }

  /** decompile_method, for a method laid out from statements: their lines. */
  method Decompile(c: Code, ghost b: Block) returns (lines: seq<Line>)
    requires c.words == Compiled(b) && FitsBlock(b)
    ensures lines == LinesOf(b)
  {
    Decompiles(c, b);
    var d := new Decompiler(c.words);
    ghost var read: Reader := (i: nat, t) => Stmts(c.words, i, t);
    d.Statements(0, read);
    assert [] + LinesOf(b) == LinesOf(b);
    lines := d.lines;
  }
}

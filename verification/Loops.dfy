/** The meaning of the language by what small programs come to, for all values (src/src/opcodes1.c:138-172, 487-676): what
    order a loop goes in, how far, which branch is taken, and how many loops a break or continue leaves. */
module Loops {
  import opened Wrappers
  import opened Values
  import opened Vm
  import opened VmLang
  import opened Operators

  // ---------------------------------------------------------------- range loops

  /** acc = acc + i; where acc is local 0, a list, and i is local 1. */
  const ADD_ON := Assign(0, Bin(Add, Local(0), Local(1)))
  const COLLECT := Seq(ADD_ON, Nil)

  /** n numbers from lo on. */
  function Numbers(lo: int, n: nat): (r: seq<Var>)
    ensures |r| == n && forall i :: 0 <= i < n ==> r[i] == Num(lo + i)
  {
    seq(n, i => Num(lo + i))
  }

  lemma AddsOn(c: Code, xs: seq<Var>, v: Var, h: nat, fuel: nat)
    requires c.apply == Apply && h + 1 < STACK_SIZE && Nowhere(v, xs)
    ensures Exec(c, ADD_ON, [List(xs), v], h, fuel) == Normal([List(xs + [v]), v])
    ensures ExecBlock(c, COLLECT, [List(xs), v], h, fuel) == Normal([List(xs + [v]), v])
  {
    ListsAreSets(xs, v);
    assert Eval(c, Bin(Add, Local(0), Local(1)), [List(xs), v], h) == V(List(xs + [v]));
    assert [List(xs), v][0 := List(xs + [v])] == [List(xs + [v]), v];
  }

  lemma {:induction false} Collects(c: Code, lo: int, done: nat, left: nat, w: Var, h: nat, fuel: nat)
    requires c.apply == Apply && h + 5 <= STACK_SIZE && fuel >= left
    ensures ExecRange(c, 1, Num(lo + done), Num(lo + done + left - 1), COLLECT, [List(Numbers(lo, done)), w], h, fuel)
            == Normal([List(Numbers(lo, done + left)), if left == 0 then w else Num(lo + done + left - 1)])
    decreases left
  {
    hide ExecBlock, Apply;
    var v := Num(lo + done);
    if left > 0 {
      var now := [List(Numbers(lo, done)), w][1 := v];
      assert now == [List(Numbers(lo, done)), v];
      AddsOn(c, Numbers(lo, done), v, h + 3, fuel);
      assert Numbers(lo, done) + [v] == Numbers(lo, done + 1);
      Collects(c, lo, done + 1, left - 1, v, h, fuel - 1);
    }
  }

  /** for i in [lo..hi] runs its body for lo, lo + 1 and so on up to hi, and not at all when hi is below lo. */
  lemma RangeIs(c: Code, lo: int, hi: int, w: Var, h: nat, fuel: nat)
    requires c.apply == Apply && h + 5 <= STACK_SIZE && lo + fuel > hi
    ensures Exec(c, ForRange(1, NumC(lo), NumC(hi), COLLECT), [List([]), w], h, fuel)
            == if hi < lo then Normal([List([]), w]) else Normal([List(Numbers(lo, hi - lo + 1)), Num(hi)])
  {
    if lo <= hi {
      assert Numbers(lo, 0) == [];
      Collects(c, lo, 0, hi - lo + 1, w, h, fuel);
    }
  }

  // ---------------------------------------------------------------- while, do

  /** acc = acc + n; n = n - 1; */
  const COUNT_DOWN := Seq(ADD_ON, Seq(Assign(1, Bin(Sub, Local(1), NumC(1))), Nil))

  /** k numbers from n down. */
  function Downward(n: int, k: nat): (r: seq<Var>)
    ensures |r| == k && forall i :: 0 <= i < k ==> r[i] == Num(n - i)
  {
    seq(k, i => Num(n - i))
  }

  lemma CountsDown(c: Code, n: int, done: nat, h: nat, fuel: nat)
    requires c.apply == Apply && h + 1 < STACK_SIZE
    ensures ExecBlock(c, COUNT_DOWN, [List(Downward(n, done)), Num(n - done)], h, fuel)
            == Normal([List(Downward(n, done + 1)), Num(n - done - 1)])
  {
    var xs, v := Downward(n, done), Num(n - done);
    AddsOn(c, xs, v, h, fuel);
    assert xs + [v] == Downward(n, done + 1);
    var l := [List(Downward(n, done + 1)), v];
    assert Eval(c, Bin(Sub, Local(1), NumC(1)), l, h) == V(Num(n - done - 1));
    assert l[1 := Num(n - done - 1)] == [List(Downward(n, done + 1)), Num(n - done - 1)];
  }

  lemma {:induction false} WhileFrom(c: Code, n: nat, done: nat, h: nat, fuel: nat)
    requires c.apply == Apply && h + 2 < STACK_SIZE && done <= n && fuel >= n - done
    ensures ExecWhile(c, Local(1), COUNT_DOWN, [List(Downward(n, done)), Num(n - done)], h, fuel)
            == Normal([List(Downward(n, n)), Num(0)])
    decreases n - done
  {
    hide ExecBlock, Apply, Downward;
    if done < n {
      CountsDown(c, n, done, h + 1, fuel);
      WhileFrom(c, n, done + 1, h, fuel - 1);
    }
  }

  /** while (n) runs its body as long as n is true, and asks first. */
  lemma WhileIs(c: Code, n: nat, h: nat, fuel: nat)
    requires c.apply == Apply && h + 2 < STACK_SIZE && fuel >= n
    ensures Exec(c, While(Local(1), COUNT_DOWN), [List([]), Num(n)], h, fuel) == Normal([List(Downward(n, n)), Num(0)])
  {
    assert Downward(n, 0) == [];
    WhileFrom(c, n, 0, h, fuel);
  }

  lemma {:induction false} DoFrom(c: Code, n: int, done: nat, h: nat, fuel: nat)
    requires c.apply == Apply && h + 2 < STACK_SIZE && fuel > 0 && fuel >= n - done && (done > 0 ==> done < n)
    ensures var k: nat := if n > 1 then n else 1;
            ExecDo(c, COUNT_DOWN, Bin(Lt, NumC(0), Local(1)), [List(Downward(n, done)), Num(n - done)], h, fuel)
            == Normal([List(Downward(n, k)), Num(n - k)])
    decreases fuel
  {
    hide ExecBlock, Apply, Downward;
    CountsDown(c, n, done, h + 1, fuel);
    var l := [List(Downward(n, done + 1)), Num(n - done - 1)];
    NumbersCompare(0, n - done - 1);
    assert Eval(c, Bin(Lt, NumC(0), Local(1)), l, h + 1) == if 0 < n - done - 1 then YES else NO;
    if 0 < n - done - 1 { DoFrom(c, n, done + 1, h, fuel - 1); }
  }

  /** do while (0 < n) runs its body once, and then as long as 0 < n. */
  lemma DoIs(c: Code, n: int, h: nat, fuel: nat)
    requires c.apply == Apply && h + 2 < STACK_SIZE && fuel > 0 && fuel >= n
    ensures var k: nat := if n > 1 then n else 1;
            Exec(c, DoWhile(COUNT_DOWN, Bin(Lt, NumC(0), Local(1))), [List([]), Num(n)], h, fuel)
            == Normal([List(Downward(n, k)), Num(n - k)])
  {
    assert Downward(n, 0) == [];
    DoFrom(c, n, 0, h, fuel);
  }

  // ---------------------------------------------------------------- if

  function Answer(n: int): Block { Seq(Return(NumC(n)), Nil) }

  /** The first part whose condition is true is taken, or the last one. */
  lemma IfIs(c: Code, a: Var, b: Var, h: nat, fuel: nat)
    requires h + 1 < STACK_SIZE
    ensures Exec(c, If(Local(0), Answer(1), ElseIf(Local(1), Answer(2), Else(Answer(3)))), [a, b], h, fuel)
            == Returned(Num(if True(a) then 1 else if True(b) then 2 else 3))
    ensures Exec(c, If(Local(0), Answer(1), NoAlt), [a, b], h, fuel) == if True(a) then Returned(Num(1)) else Normal([a, b])
  {
  }

  // ---------------------------------------------------------------- break and continue

  /** s within n loops that would go on for ever. */
  function Nested(n: nat, s: Stmt): Stmt { if n == 0 then s else While(NumC(1), Seq(Nested(n - 1, s), Nil)) }

  lemma Inside(c: Code, s: Stmt, l: seq<Var>, h: nat, fuel: nat)
    ensures ExecBlock(c, Seq(s, Nil), l, h, fuel) == Exec(c, s, l, h, fuel)
  {
  }

  /** A loop around s goes on with the same locals, or s itself never ends. */
  predicate Again(c: Code, s: Stmt, l: seq<Var>, h: nat, fuel: nat) {
    var o := Exec(c, s, l, h + 1, fuel);
    o == Timeout || AfterBody(o) == Result<seq<Var>, Outcome>.Ok(l)
  }

  lemma {:induction false} ForEver(c: Code, s: Stmt, l: seq<Var>, h: nat, fuel: nat)
    requires h + 1 < STACK_SIZE
    requires forall f: nat :: f <= fuel ==> Again(c, s, l, h, f)
    ensures ExecWhile(c, NumC(1), Seq(s, Nil), l, h, fuel) == Timeout
    decreases fuel
  {
    if fuel > 0 {
      assert Again(c, s, l, h, fuel);
      Inside(c, s, l, h + 1, fuel);
      ForEver(c, s, l, h, fuel - 1);
    }
  }

  /** break n leaves n loops: out of as many it goes on behind the outermost, in more of them those around never end,
      in fewer it is still on its way. */
  lemma {:induction false} BreakIs(c: Code, k: nat, n: int, l: seq<Var>, h: nat, fuel: nat)
    requires h + k < STACK_SIZE && n >= 1
    ensures Exec(c, Nested(k, BreakS(n)), l, h, fuel)
            == if fuel == 0 < k || n < k then Timeout else if k < n then Broke(n - k, l) else Normal(l)
    decreases k
  {
    if k > 0 {
      var s := Nested(k - 1, BreakS(n));
      Inside(c, s, l, h + 1, fuel);
      BreakIs(c, k - 1, n, l, h + 1, fuel);
      if k > n {
        forall f: nat | f <= fuel ensures Again(c, s, l, h, f) {
          BreakIs(c, k - 1, n, l, h + 1, f);
        }
        ForEver(c, s, l, h, fuel);
      }
    }
  }

  /** continue n goes on with the next turn of the n-th loop. */
  lemma {:induction false} ContinueIs(c: Code, k: nat, n: int, l: seq<Var>, h: nat, fuel: nat)
    requires h + k < STACK_SIZE && n >= 1
    ensures Exec(c, Nested(k, ContinueS(n)), l, h, fuel)
            == if fuel == 0 < k || n <= k then Timeout else Continued(n - k, l)
    decreases k
  {
    if k > 0 {
      var s := Nested(k - 1, ContinueS(n));
      Inside(c, s, l, h + 1, fuel);
      ContinueIs(c, k - 1, n, l, h + 1, fuel);
      if k >= n {
        forall f: nat | f <= fuel ensures Again(c, s, l, h, f) {
          ContinueIs(c, k - 1, n, l, h + 1, f);
        }
        ForEver(c, s, l, h, fuel);
      }
    }
  }

  // ---------------------------------------------------------------- and, or, lists

  /** && and || give 0 or 1 or the right value, as true as both or either of the two, and skip the right side when the
      left one decides. */
  lemma ShortIs(c: Code, l: Expr, r: Expr, locals: seq<Var>, h: nat)
    requires Eval(c, l, locals, h).V?
    ensures var a, both := Eval(c, l, locals, h).v, Eval(c, Short(false, l, r), locals, h);
            var either := Eval(c, Short(true, l, r), locals, h);
            && (!True(a) ==> both == NO) && (True(a) ==> either == YES)
            && (True(a) ==> both == Eval(c, r, locals, h)) && (!True(a) ==> either == Eval(c, r, locals, h))
  {
  }

  /** The elements of a spliced list stand in its place. */
  lemma SpliceIs(c: Code, a: Var, els: seq<Var>, b: Var, h: nat)
    requires h + |els| + 3 <= STACK_SIZE
    ensures Eval(c, ListC(Arg(Local(0), false, Arg(Local(1), true, Arg(Local(2), false, NoArgs)))), [a, List(els), b], h)
            == V(List([a] + els + [b]))
  {
    assert [a] + (els + ([b] + [])) == [a] + els + [b];
  }

  /** An error that the method ignores is the value of its operator; any other ends the method. */
  lemma IgnoredIs(c: Code, n: int, locals: seq<Var>, h: nat)
    requires c.apply == Apply && h + 1 < STACK_SIZE
    ensures Eval(c, Bin(Div, NumC(n), NumC(0)), locals, h) == if E_DIV in c.ignored then V(Var.Err(E_DIV)) else X(E_DIV)
  {
  }

  // ---------------------------------------------------------------- words

  /** if (i && !n) return {-i, @l}; elseif (n) n = 5; else do break; while (n); endif */
  const COND := Short(false, Local(0), Not(Local(1)))
  const GIVE := Return(ListC(Arg(Neg(Local(0)), false, Arg(Local(2), true, NoArgs))))
  const LOOP := DoWhile(Seq(BreakS(1), Nil), Local(1))
  const SAMPLE := If(COND, Seq(GIVE, Nil), ElseIf(Local(1), Seq(Assign(1, NumC(5)), Nil), Else(Seq(LOOP, Nil))))

  /** Its words, one by one, with the numbers of the opcodes. */
  lemma SampleWords()
    ensures Compiled(Seq(SAMPLE, Nil)) ==
            [321, 0, 261, 7, 321, 1, 269, 392] + [276, 21, 42] + [405, 321, 0, 270, 321, 2, 404, 334, 285] + [305]
            + ([321, 1] + [278, 30] + [332, 5, 324, 1] + [305] + ([277] + [397, 37, 287, 1, 321, 1, 398, 33, 35] + [305]))
            + [305] + [305]
  {
    CondWords();
    GiveWords();
    LoopWords();
    assert CodeBlock(Seq(Assign(1, NumC(5)), Nil), 25) == [332, 5, 324, 1];
    hide Code1, CodeStmt;
    IfWords();
  }

  lemma CondWords()
    ensures Code1(COND, 0) == [321, 0, 261, 7, 321, 1, 269, 392] && Len(COND) == 8
  {
  }

  lemma GiveWords()
    ensures CodeBlock(Seq(GIVE, Nil), 11) == [405, 321, 0, 270, 321, 2, 404, 334, 285] && LenBlock(Seq(GIVE, Nil)) == 9
  {
    var rest := Arg(Local(2), true, NoArgs);
    assert CodeArgs(rest, 15) == [321, 2, 404] && LenArgs(rest) == 3;
    assert Code1(Neg(Local(0)), 12) == [321, 0, 270];
    assert CodeArgs(Arg(Neg(Local(0)), false, rest), 12) == [321, 0, 270, 321, 2, 404];
    assert Code1(GIVE.e, 11) == [405, 321, 0, 270, 321, 2, 404, 334] && Len(GIVE.e) == 8;
  }

  lemma LoopWords()
    ensures CodeBlock(Seq(LOOP, Nil), 31) == [397, 37, 287, 1, 321, 1, 398, 33, 35] && LenBlock(Seq(LOOP, Nil)) == 9
  {
    assert CodeBlock(Seq(BreakS(1), Nil), 33) == [287, 1] && LenBlock(Seq(BreakS(1), Nil)) == 2;
    assert CodeStmt(LOOP, 31) == [397, 37, 287, 1, 321, 1, 398, 33, 35];
  }

  lemma IfWords()
    ensures var alt := SAMPLE.alt;
            && LenStmt(SAMPLE) == 42
            && CodeAlt(alt, 21) == Code1(Local(1), 21) + [278, 30] + CodeBlock(alt.body, 25) + [305]
                                   + ([277] + CodeBlock(Seq(LOOP, Nil), 31) + [305])
            && Compiled(Seq(SAMPLE, Nil)) ==
               Code1(COND, 0) + [276, 21, 42] + CodeBlock(Seq(GIVE, Nil), 11) + [305] + CodeAlt(alt, 21) + [305] + [305]
            && Code1(Local(1), 21) == [321, 1]
  {
    CondWords();
    GiveWords();
    LoopWords();
    hide CodeBlock;
    assert LenBlock(Seq(Assign(1, NumC(5)), Nil)) == 4;
    assert LenAlt(Else(Seq(LOOP, Nil))) == 11 && LenAlt(SAMPLE.alt) == 20;
    OneStatement(SAMPLE);
  }

  lemma OneStatement(s: Stmt)
    ensures CodeBlock(Seq(s, Nil), 0) == CodeStmt(s, 0)
  {
    assert CodeStmt(s, 0) + [] == CodeStmt(s, 0);
  }
}

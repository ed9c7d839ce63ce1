/** The laws of the operators on values (src/src/opcodes1.c:15-300, src/src/var.c:57-123, src/src/cool.h:75-78), in terms of the
    values alone. */
module Operators {
  import opened Values
  import opened Vm

  /** What an operator gives when it holds, and when it does not. */
  const YES := V(Num(1))
  const NO := V(Num(0))

  // ---------------------------------------------------------------- text without case

  const UPPER := "ABCDEFGHIJKLMNOPQRSTUVWXYZ"
  const LOWER := "abcdefghijklmnopqrstuvwxyz"

  /** Case is that of the 26 letters and no other character. */
  lemma CaseIs(a: char, b: char)
    ensures Lower(a) == Lower(b)
            <==> a == b || exists i :: 0 <= i < 26 && {a, b} == {UPPER[i], LOWER[i]}
  {
    if Lower(a) == Lower(b) && a != b {
      var i := (if a < b then a else b) as int - 'A' as int;
      LettersAt(i);
      assert {a, b} == {UPPER[i], LOWER[i]};
    }
    if i :| 0 <= i < 26 && {a, b} == {UPPER[i], LOWER[i]} {
      LettersAt(i);
      assert a in {UPPER[i], LOWER[i]} && b in {UPPER[i], LOWER[i]};
    }
  }

  lemma LettersAt(i: int)
    requires 0 <= i < 26
    ensures UPPER[i] == 'A' + i as char && LOWER[i] == 'a' + i as char
  {
    if i < 9 { FirstLetters(i); } else if i < 18 { MiddleLetters(i); } else { LastLetters(i); }
  }

  lemma FirstLetters(i: int)
    requires 0 <= i < 9
    ensures UPPER[i] == 'A' + i as char && LOWER[i] == 'a' + i as char
  {
  }

  lemma MiddleLetters(i: int)
    requires 9 <= i < 18
    ensures UPPER[i] == 'A' + i as char && LOWER[i] == 'a' + i as char
  {
  }

  lemma LastLetters(i: int)
    requires 18 <= i < 26
    ensures UPPER[i] == 'A' + i as char && LOWER[i] == 'a' + i as char
  {
  }

  /** s and t agree, but for case, before place k. */
  ghost predicate AgreeTo(s: string, t: string, k: nat) {
    k <= |s| && k <= |t| && forall i :: 0 <= i < k ==> Lower(s[i]) == Lower(t[i])
  }

  /** At the first place where they differ s has the smaller character, or has come to its end. */
  ghost predicate Earlier(s: string, t: string) {
    exists k: nat :: AgreeTo(s, t, k) && k < |t| && (k < |s| ==> Lower(s[k]) < Lower(t[k]))
  }

  lemma {:induction false} CompareIs(s: string, t: string)
    ensures CompareText(s, t) < 0 <==> Earlier(s, t)
    ensures CompareText(s, t) > 0 <==> Earlier(t, s)
    ensures CompareText(s, t) == 0 <==> SameText(s, t)
  {
    if s == [] || t == [] || Lower(s[0]) != Lower(t[0]) {
      assert AgreeTo(s, t, 0) && AgreeTo(t, s, 0);
    } else {
      CompareIs(s[1..], t[1..]);
      EarlierTail(s, t);
      EarlierTail(t, s);
      assert SameText(s, t) <==> SameText(s[1..], t[1..]) by {
        assert forall i :: 0 < i < |s| ==> s[i] == s[1..][i - 1];
        assert forall i :: 0 < i < |t| ==> t[i] == t[1..][i - 1];
        assert forall i :: 0 <= i < |s| - 1 ==> s[1..][i] == s[i + 1];
      }
    }
  }

  lemma EarlierTail(s: string, t: string)
    requires s != [] && t != [] && Lower(s[0]) == Lower(t[0])
    ensures Earlier(s, t) <==> Earlier(s[1..], t[1..])
  {
    if k: nat :| AgreeTo(s, t, k) && k < |t| && (k < |s| ==> Lower(s[k]) < Lower(t[k])) {
      assert k > 0;
      assert AgreeTo(s[1..], t[1..], k - 1);
    }
    if k: nat :| AgreeTo(s[1..], t[1..], k) && k < |t| - 1 && (k < |s| - 1 ==> Lower(s[1..][k]) < Lower(t[1..][k])) {
      assert forall i :: 0 < i < k + 1 ==> s[i] == s[1..][i - 1] && t[i] == t[1..][i - 1];
      assert AgreeTo(s, t, k + 1);
    }
  }

  // ---------------------------------------------------------------- comparing

  /** Numbers are compared as numbers. */
  lemma NumbersCompare(l: int, r: int)
    ensures Apply(Lt, Num(l), Num(r)) == if l < r then YES else NO
    ensures Apply(Gt, Num(l), Num(r)) == if r < l then YES else NO
    ensures Apply(Le, Num(l), Num(r)) == if r < l then NO else YES
    ensures Apply(Ge, Num(l), Num(r)) == if l < r then NO else YES
  {
  }

  /** Text is compared by the first place where it differs, whatever its case; what ends there comes first. */
  lemma TextCompares(l: string, r: string)
    ensures Apply(Lt, Str(l), Str(r)) == if Earlier(l, r) then YES else NO
    ensures Apply(Gt, Str(l), Str(r)) == if Earlier(r, l) then YES else NO
    ensures Apply(Le, Str(l), Str(r)) == if Earlier(r, l) then NO else YES
    ensures Apply(Ge, Str(l), Str(r)) == if Earlier(l, r) then NO else YES
    ensures Apply(Eq, Str(l), Str(r)) == if Earlier(l, r) || Earlier(r, l) then NO else YES
  {
    CompareIs(l, r);
  }

  /** The value with all its text, at any depth, in lower case. */
  function Folded(v: Var): Var {
    match v
    case Str(s) => Str(FoldedText(s))
    case List(els) => List(FoldedEls(els))
    case _ => v
  }

  function FoldedText(s: string): (t: string)
    ensures |t| == |s| && forall i :: 0 <= i < |s| ==> t[i] == Lower(s[i])
  {
    seq(|s|, i requires 0 <= i < |s| => Lower(s[i]))
  }

  function FoldedEls(els: seq<Var>): (r: seq<Var>)
    ensures |r| == |els|
  {
    if els == [] then [] else [Folded(els[0])] + FoldedEls(els[1..])
  }

  /** Whether a map is in the value, at any depth. */
  predicate Mapless(v: Var) {
    match v
    case List(els) => forall i :: 0 <= i < |els| ==> Mapless(els[i])
    case Map(_, _) => false
    case _ => true
  }

  lemma FoldedTextIs(s: string, t: string)
    ensures FoldedText(s) == FoldedText(t) <==> SameText(s, t)
  {
    if FoldedText(s) == FoldedText(t) {
      forall i | 0 <= i < |s| ensures Lower(s[i]) == Lower(t[i]) {
        assert FoldedText(s)[i] == FoldedText(t)[i];
      }
    }
  }

  /** Two values without maps are equal exactly when they are the same but for the case of their text. */
  lemma {:induction false} EqualIs(a: Var, b: Var)
    ensures VarEq(a, b) <==> Mapless(a) && Mapless(b) && Folded(a) == Folded(b)
    decreases a
  {
    match (a, b) {
      case (Str(s), Str(t)) => FoldedTextIs(s, t);
      case (List(x), List(y)) => ListsEqual(x, y);
      case _ =>
    }
  }

  lemma {:induction false} ListsEqual(x: seq<Var>, y: seq<Var>)
    ensures ListEq(x, y) <==> Mapless(List(x)) && Mapless(List(y)) && FoldedEls(x) == FoldedEls(y)
    decreases x
  {
    if x != [] && y != [] {
      EqualIs(x[0], y[0]);
      ListsEqual(x[1..], y[1..]);
      FoldedHead(x);
      FoldedHead(y);
      MaplessHead(x);
      MaplessHead(y);
    }
  }

  lemma FoldedHead(x: seq<Var>)
    requires x != []
    ensures FoldedEls(x)[0] == Folded(x[0]) && FoldedEls(x)[1..] == FoldedEls(x[1..])
  {
  }

  lemma MaplessHead(x: seq<Var>)
    requires x != []
    ensures Mapless(List(x)) <==> Mapless(x[0]) && Mapless(List(x[1..]))
  {
    assert forall i :: 0 < i < |x| ==> x[i] == x[1..][i - 1];
    assert forall i :: 0 <= i < |x| - 1 ==> x[1..][i] == x[i + 1];
  }

  /** == and != tell whether two values are the same but for the case of their text. */
  lemma EqualityIs(l: Var, r: Var)
    requires Mapless(l) && Mapless(r)
    ensures Apply(Eq, l, r) == if Folded(l) == Folded(r) then YES else NO
    ensures Apply(Ne, l, r) == if Folded(l) == Folded(r) then NO else YES
  {
    EqualIs(l, r);
  }

  // ---------------------------------------------------------------- arithmetic

  /** Subtracting undoes adding. */
  lemma SubUndoesAdd(l: int, r: int)
    ensures Apply(Add, Num(l), Num(r)).V? && Apply(Sub, Apply(Add, Num(l), Num(r)).v, Num(r)) == V(Num(l))
    ensures Apply(Sub, Num(l), Num(r)).V? && Apply(Add, Apply(Sub, Num(l), Num(r)).v, Num(r)) == V(Num(l))
    ensures Apply(Add, Num(l), Num(0)) == V(Num(l)) && Apply(Add, Num(l), Num(1)) == V(Num(l + 1))
  {
  }

  /** Multiplying is adding over and over. */
  lemma MulRepeatsAdd(l: int, r: int)
    ensures Apply(Mul, Num(l), Num(0)) == V(Num(0)) && Apply(Mul, Num(l), Num(r)).V?
    ensures Apply(Mul, Num(l), Num(r + 1)) == Apply(Add, Apply(Mul, Num(l), Num(r)).v, Num(l))
  {
  }

  lemma NegatedIs(n: int)
    ensures Negated(Num(n)).V? && Apply(Add, Negated(Num(n)).v, Num(n)) == V(Num(0))
  {
  }

  lemma QuotientTimes(l: int, r: int) returns (p: int)
    requires r != 0
    ensures r * Quotient(l, r) == if l < 0 then -p else p
    ensures Abs(l) - Abs(r) < p && 0 <= p <= Abs(l)
  {
    var q;
    q, p := Floor(Abs(l), Abs(r));
    assert Quotient(l, r) == if (l < 0) == (r < 0) then q else -q;
    Products(Abs(r), q);
  }

  lemma Floor(a: int, b: int) returns (q: int, p: int)
    requires a >= 0 && b > 0
    ensures q == a / b && p == b * q && a - b < p && 0 <= p <= a
  {
    q := a / b;
    p := b * q;
    assert a == b * q + a % b;
  }

  lemma Products(b: int, q: int)
    ensures b * -q == -(b * q) && -b * q == -(b * q) && -b * -q == b * q
  {
  }

  /** Quotient and remainder belong together; the remainder is the smaller one and has the sign of the dividend. */
  lemma DivModIs(l: int, r: int)
    requires r != 0
    ensures Apply(Div, Num(l), Num(r)).V? && Apply(Div, Num(l), Num(r)).v.Num?
    ensures Apply(Mod, Num(l), Num(r)).V? && Apply(Mod, Num(l), Num(r)).v.Num?
    ensures var q, m := Apply(Div, Num(l), Num(r)).v.num, Apply(Mod, Num(l), Num(r)).v.num;
            && l == q * r + m && (m > 0 ==> l > 0) && (m < 0 ==> l < 0)
            && if r < 0 then r < m < -r else -r < m < r
  {
    var p := QuotientTimes(l, r);
    hide Quotient;
  }

  // ---------------------------------------------------------------- text and lists

  lemma TextJoins(l: string, r: string)
    ensures Apply(Add, Str(l), Str(r)) == V(Str(l + r))
  {
  }

  /** The first element that equals v is at k. */
  predicate FirstAt(v: Var, els: seq<Var>, k: nat) {
    k < |els| && VarEq(v, els[k]) && forall j :: 0 <= j < k ==> !VarEq(v, els[j])
  }

  predicate Nowhere(v: Var, els: seq<Var>) { forall j :: 0 <= j < |els| ==> !VarEq(v, els[j]) }

  lemma {:induction false} FindIs(v: Var, els: seq<Var>)
    ensures if Find(v, els) == |els| then Nowhere(v, els) else FirstAt(v, els, Find(v, els))
  {
    if els != [] && !VarEq(v, els[0]) {
      FindIs(v, els[1..]);
      assert forall j :: 0 < j < |els| ==> els[j] == els[1..][j - 1];
    }
  }

  /** in gives the place of the first element that is equal, counted from 1, and 0 when there is none. */
  lemma InList(l: Var, els: seq<Var>)
    ensures Nowhere(l, els) ==> Apply(In, l, List(els)) == V(Num(0))
    ensures forall k: nat :: FirstAt(l, els, k) ==> Apply(In, l, List(els)) == V(Num(k + 1))
  {
    FindIs(l, els);
  }

  /** Adding to a list is adding to a set, at the end; subtracting takes the first equal element out. */
  lemma ListsAreSets(els: seq<Var>, r: Var)
    ensures Nowhere(r, els) ==> Apply(Add, List(els), r) == V(List(els + [r])) && Apply(Sub, List(els), r) == V(List(els))
    ensures forall k: nat :: FirstAt(r, els, k) ==>
              Apply(Add, List(els), r) == V(List(els)) && Apply(Sub, List(els), r) == V(List(els[..k] + els[k + 1..]))
  {
    FindIs(r, els);
  }

  /** s stands in t at place i, whatever the case. */
  predicate StandsAt(s: string, t: string, i: nat) { i < |t| && i + |s| <= |t| && SameText(s, t[i..i + |s|]) }

  lemma {:induction false} WithinIs(s: string, t: string, i: nat)
    requires i <= |t|
    ensures var p := Within(s, t, i);
            && (p == 0 ==> forall j: nat :: i <= j ==> !StandsAt(s, t, j))
            && (p > 0 ==> i < p && StandsAt(s, t, p - 1) && forall j: nat :: i <= j < p - 1 ==> !StandsAt(s, t, j))
    decreases |t| - i
  {
    hide SameText;
    if i < |t| && !StandsAt(s, t, i) { WithinIs(s, t, i + 1); }
  }

  /** in gives the first place where the one text stands in the other, counted from 1, and 0 when it does not. */
  lemma InText(l: string, r: string)
    ensures (forall j: nat :: !StandsAt(l, r, j)) ==> Apply(In, Str(l), Str(r)) == V(Num(0))
    ensures forall k: nat :: StandsAt(l, r, k) && (forall j: nat :: j < k ==> !StandsAt(l, r, j)) ==>
              Apply(In, Str(l), Str(r)) == V(Num(k + 1))
  {
    WithinIs(l, r, 0);
  }

  // ---------------------------------------------------------------- truth and errors

  /** What is false: 0, the empty text, the empty list, an object of negative number, every map and every error. */
  lemma FalseIs(v: Var)
    requires !v.Pc?
    ensures !True(v) <==> v in {Num(0), Str(""), List([])} || v.Map? || v.Err? || (v.Obj? && v.id < 0)
  {
  }

  datatype Kind = KNum | KStr | KObj | KList | KMap | KErr | KPc

  function KindOf(v: Var): Kind {
    match v
    case Num(_) => KNum case Str(_) => KStr case Obj(_, _) => KObj case List(_) => KList case Map(_, _) => KMap
    case Err(_) => KErr case Pc(_) => KPc
  }

  /** Which operands an operator takes, and the error for all others. */
  lemma ErrorsAre(op: Op, l: Var, r: Var)
    ensures var a, b, e := KindOf(l), KindOf(r), Apply(op, l, r);
            match op
            case Add => if a == KList || (a == b && a in {KNum, KStr}) then e.V? else e == X(E_TYPE)
            case Sub => if a == KList || a == b == KNum then e.V? else e == X(if a == b then E_ARGTYPE else E_TYPE)
            case Mul => if a == b == KNum then e.V? else e == X(E_TYPE)
            case Div => if a != KNum || b != KNum then e == X(E_TYPE) else if r == Num(0) then e == X(E_DIV) else e.V?
            case Mod => if a != KNum || b != KNum then e == X(E_TYPE) else if r == Num(0) then e == X(E_DIV) else e.V?
            case Eq => e.V?
            case Ne => e.V?
            case In => if b == KList || a == b == KStr then e.V? else e == X(E_TYPE)
            case _ => if a == b && a in {KNum, KStr} then e.V? else e == X(E_TYPE)
    ensures Negated(l) == X(E_TYPE) <==> KindOf(l) != KNum
  {
  }
}

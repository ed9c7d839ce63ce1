/** The symbols of an object (src/src/symbol.c:32-101): names counted by reference, numbers that stay. */
module Symbols {
  import opened Wrappers
  import opened PackSpec

  const SYM_INIT_SIZE := 16

  // ---------------------------------------------------------------- one step

  predicate Holds(y: Symbol, name: string) { y.Used? && y.text == name }

  /** The first slot in use with this name, or |t|. */
  function SlotOf(t: seq<Symbol>, name: string): (i: nat)
    ensures i <= |t| && (i < |t| ==> Holds(t[i], name)) && forall j :: 0 <= j < i ==> !Holds(t[j], name)
  {
    if t == [] then 0 else if Holds(t[0], name) then 0 else 1 + SlotOf(t[1..], name)
  }

  /** The first blank slot, or |t|. */
  function BlankOf(t: seq<Symbol>): (i: nat)
    ensures i <= |t| && (i < |t| ==> t[i].Free?) && forall j :: 0 <= j < i ==> t[j].Used?
  {
    if t == [] then 0 else if t[0].Free? then 0 else 1 + BlankOf(t[1..])
  }

  function SystemOf(name: string, i: nat): (k: nat)
    requires i <= |SYSTEM_SYMBOLS|
    ensures i <= k <= |SYSTEM_SYMBOLS| && (k < |SYSTEM_SYMBOLS| ==> SYSTEM_SYMBOLS[k] == name)
    ensures forall j :: i <= j < k ==> SYSTEM_SYMBOLS[j] != name
    decreases |SYSTEM_SYMBOLS| - i
  {
    if i == |SYSTEM_SYMBOLS| || SYSTEM_SYMBOLS[i] == name then i else SystemOf(name, i + 1)
  }

  /** sym_add: the table after it, and the number. */
  function Added(t: seq<Symbol>, name: string): (seq<Symbol>, int) {
    var i, k, b := SlotOf(t, name), SystemOf(name, 0), BlankOf(t);
    if i < |t| then (t[i := Used(t[i].ref + 1, name)], i)
    else if k < |SYSTEM_SYMBOLS| then (t, -(k as int) - 1)
    else if b < |t| then (t[b := Used(1, name)], b)
    else (t + [Used(1, name)], |t|)
  }

  predicate Live(t: seq<Symbol>, n: int) { 0 <= n < |t| && t[n].Used? }

  /** sym_free, of a number in use. */
  function Freed(t: seq<Symbol>, n: int): seq<Symbol>
    requires n < 0 || Live(t, n)
  {
    if n < 0 then t else t[n := if t[n].ref == 1 then Free else Used(t[n].ref - 1, t[n].text)]
  }

  // ---------------------------------------------------------------- what every step keeps

  /** Slots in use are counted, and their names differ from each other and from the system's. */
  ghost predicate Sound(t: seq<Symbol>) {
    && (forall i :: 0 <= i < |t| && t[i].Used? ==> t[i].ref > 0 && t[i].text !in SYSTEM_SYMBOLS)
    && (forall i, j :: 0 <= i < j < |t| && t[i].Used? && t[j].Used? ==> t[i].text != t[j].text)
  }

  /** How often a name has been added and not freed. */
  function Refs(t: seq<Symbol>, name: string): int {
    var i := SlotOf(t, name);
    if i < |t| then t[i].ref else 0
  }

  lemma SlotIs(t: seq<Symbol>, n: nat)
    requires Sound(t) && Live(t, n)
    ensures SlotOf(t, t[n].text) == n && Refs(t, t[n].text) == t[n].ref
  {
  }

  /** The number given resolves to the name, every number in use still means what it did, and only the
      name's own count has changed. */
  lemma AddedIs(t: seq<Symbol>, name: string)
    requires Sound(t)
    ensures var (u, n) := Added(t, name);
            && Sound(u) && SymText(u, n) == name && |t| <= |u| <= |t| + 1
            && (n < 0 <==> name in SYSTEM_SYMBOLS) && (n >= 0 ==> Live(u, n))
            && (forall m :: Live(t, m) ==> Live(u, m) && SymText(u, m) == SymText(t, m))
            && (n < 0 ==> u == t)
  {
    SystemNames(name);
    var (u, n) := Added(t, name);
    if n < 0 { assert -|SYSTEM_SYMBOLS| <= n; }
  }

  lemma SystemNames(name: string)
    ensures SystemOf(name, 0) < |SYSTEM_SYMBOLS| <==> name in SYSTEM_SYMBOLS
  {
  }

  lemma AddedRefs(t: seq<Symbol>, name: string, other: string)
    requires Sound(t) && name !in SYSTEM_SYMBOLS
    ensures Refs(Added(t, name).0, other) == Refs(t, other) + if other == name then 1 else 0
  {
    AddedIs(t, name);
    var (u, n) := Added(t, name);
    SlotIs(u, n);
    if other != name {
      var i := SlotOf(t, other);
      if i < |t| { SlotIs(t, i); SlotIs(u, i); } else { NoSlot(u, other); }
    } else {
      var i := SlotOf(t, name);
      assert n == i || i == |t|;
    }
  }

  lemma NoSlot(t: seq<Symbol>, name: string)
    requires forall i :: 0 <= i < |t| ==> !Holds(t[i], name)
    ensures Refs(t, name) == 0
  {
  }

  lemma FreedIs(t: seq<Symbol>, n: nat, other: string)
    requires Sound(t) && Live(t, n)
    ensures var u := Freed(t, n);
            && Sound(u) && |u| == |t|
            && (forall m :: Live(t, m) && (m != n || t[n].ref > 1) ==> Live(u, m) && SymText(u, m) == SymText(t, m))
            && Refs(u, other) == Refs(t, other) - if other == t[n].text then 1 else 0
  {
    var u := Freed(t, n);
    SlotIs(t, n);
    if other == t[n].text {
      if t[n].ref > 1 { SlotIs(u, n); } else { NoSlot(u, other); }
    } else {
      var i := SlotOf(t, other);
      if i < |t| { SlotIs(t, i); SlotIs(u, i); } else { NoSlot(u, other); }
    }
  }

  // ---------------------------------------------------------------- runs

  datatype Event = Add(name: string) | Release(n: int)

  function After(t: seq<Symbol>, e: Event): seq<Symbol>
    requires Legal1(t, e)
  {
    match e case Add(name) => Added(t, name).0 case Release(n) => Freed(t, n)
  }

  /** Only system symbols and numbers in use are freed. */
  predicate Legal1(t: seq<Symbol>, e: Event) { e.Add? || e.n < 0 || Live(t, e.n) }

  /** The table after a run; none when the run frees what is not in use. */
  function Run(t: seq<Symbol>, es: seq<Event>): Option<seq<Symbol>> {
    if es == [] then Some(t)
    else
      match Run(t, es[..|es| - 1])
      case None => None
      case Some(u) => if Legal1(u, es[|es| - 1]) then Some(After(u, es[|es| - 1])) else None
  }

  /** Additions of a name less releases of numbers that meant it at the time. */
  function Balance(t: seq<Symbol>, es: seq<Event>, name: string): int
    requires Run(t, es).Some?
  {
    if es == [] then 0
    else
      var n := |es| - 1;
      var u := Run(t, es[..n]).value;
      Balance(t, es[..n], name) +
        match es[n]
        case Add(x) => if x == name then 1 else 0
        case Release(k) => if k >= 0 && u[k].text == name then -1 else 0
  }

  /** After any run the table is sound, and every name that is not the system's is counted as often as it was
      added and not freed. */
  lemma {:induction false} Counted(t: seq<Symbol>, es: seq<Event>, name: string)
    requires Sound(t) && Run(t, es).Some? && name !in SYSTEM_SYMBOLS
    ensures Sound(Run(t, es).value) && Refs(Run(t, es).value, name) == Refs(t, name) + Balance(t, es, name)
    decreases |es|
  {
    if es != [] {
      var n := |es| - 1;
      Counted(t, es[..n], name);
      var u := Run(t, es[..n]).value;
      match es[n] {
        case Add(x) =>
          AddedIs(u, x);
          if x !in SYSTEM_SYMBOLS { AddedRefs(u, x, name); }
        case Release(k) => if k >= 0 { FreedIs(u, k, name); }
      }
    }
  }

  /** The number m is in use after the first k events. */
  predicate LiveAfter(t: seq<Symbol>, es: seq<Event>, k: int, m: int)
    requires 0 <= k <= |es|
  {
    Run(t, es[..k]).Some? && Live(Run(t, es[..k]).value, m)
  }

  /** A number that stays in use throughout a run keeps its name, whatever slots are filled anew. */
  lemma {:induction false} NumberKept(t: seq<Symbol>, es: seq<Event>, m: int)
    requires Sound(t) && Run(t, es).Some? && Live(t, m)
    requires forall k :: 0 <= k <= |es| ==> LiveAfter(t, es, k, m)
    ensures Live(Run(t, es).value, m) && SymText(Run(t, es).value, m) == SymText(t, m)
    decreases |es|
  {
    assert es[..|es|] == es && LiveAfter(t, es, |es|, m);
    if es != [] {
      var n := |es| - 1;
      forall k | 0 <= k <= n ensures LiveAfter(t, es[..n], k, m) {
        assert es[..n][..k] == es[..k] && LiveAfter(t, es, k, m);
      }
      NumberKept(t, es[..n], m);
      SoundRun(t, es[..n]);
      var u := Run(t, es[..n]).value;
      match es[n] {
        case Add(x) => AddedIs(u, x);
        case Release(k) => if k >= 0 { FreedIs(u, k, ""); }
      }
    }
  }

  lemma {:induction false} SoundRun(t: seq<Symbol>, es: seq<Event>)
    requires Sound(t) && Run(t, es).Some?
    ensures Sound(Run(t, es).value)
    decreases |es|
  {
    if es != [] {
      SoundRun(t, es[..|es| - 1]);
      var u := Run(t, es[..|es| - 1]).value;
      match es[|es| - 1] {
        case Add(x) => AddedIs(u, x);
        case Release(k) => if k >= 0 { FreedIs(u, k, ""); }
      }
    }
  }

  // ---------------------------------------------------------------- the table as it is kept

  class SymbolTable {
    var symbols: array<Symbol>
    var nsymb: nat

    ghost predicate Valid()
      reads this
    {
      nsymb <= symbols.Length && symbols.Length > 0
    }

    ghost function Table(): (t: seq<Symbol>)
      requires Valid()
      reads this, symbols
      ensures |t| == nsymb
    {
      symbols[..nsymb]
    }

    /** sym_init. */
    constructor ()
      ensures Valid() && fresh(symbols) && Table() == [] && symbols.Length == SYM_INIT_SIZE
    {
      symbols := new Symbol[SYM_INIT_SIZE](_ => Free);
      nsymb := 0;
    }

    /** The first slot in use that has the name. */
    method FindName(name: string) returns (i: nat)
      requires Valid()
      ensures i == SlotOf(Table(), name)
    {
      i := 0;
      while i < nsymb
        invariant i <= nsymb && SlotOf(Table(), name) == i + SlotOf(Table()[i..], name)
      {
        assert Table()[i..][0] == symbols[i] && Table()[i..][1..] == Table()[i + 1..];
        if Holds(symbols[i], name) { return; }
        i := i + 1;
      }
    }

    method FindBlank() returns (i: nat)
      requires Valid()
      ensures i == BlankOf(Table())
    {
      i := 0;
      while i < nsymb
        invariant i <= nsymb && BlankOf(Table()) == i + BlankOf(Table()[i..])
      {
        assert Table()[i..][0] == symbols[i] && Table()[i..][1..] == Table()[i + 1..];
        if symbols[i].Free? { return; }
        i := i + 1;
      }
    }

    method FindSystem(name: string) returns (i: nat)
      ensures i == SystemOf(name, 0)
    {
      i := 0;
      while i < |SYSTEM_SYMBOLS|
        invariant i <= |SYSTEM_SYMBOLS| && SystemOf(name, 0) == SystemOf(name, i)
      {
        if SYSTEM_SYMBOLS[i] == name { return; }
        i := i + 1;
      }
    }

    /** sym_add. */
    method AddSymbol(name: string) returns (n: int)
      requires Valid()
      modifies this, symbols
      ensures Valid() && (symbols == old(symbols) || fresh(symbols))
      ensures (Table(), n) == Added(old(Table()), name)
      ensures symbols.Length == if old(nsymb) < nsymb && old(nsymb) == old(symbols.Length)
                                then 2 * old(symbols.Length) else old(symbols.Length)
    {
      ghost var t := Table();
      var i := FindName(name);
      if i < nsymb {
        symbols[i] := Used(symbols[i].ref + 1, symbols[i].text);
        return i;
      }
      var k := FindSystem(name);
      if k < |SYSTEM_SYMBOLS| { return -(k as int) - 1; }
      i := FindBlank();
      if i < nsymb {
        symbols[i] := Used(1, name);
        return i;
      }
      if nsymb >= symbols.Length { Double(); }
      symbols[nsymb] := Used(1, name);
      nsymb := nsymb + 1;
      assert Table() == t + [Used(1, name)];
      return nsymb - 1;
    }

    /** The table full: one twice as long takes its place. */
    method Double()
      requires Valid()
      modifies this`symbols
      ensures Valid() && fresh(symbols) && Table() == old(Table()) && symbols.Length == 2 * old(symbols.Length)
    {
      var more := new Symbol[symbols.Length * 2](_ => Free);
      var i := 0;
      while i < nsymb
        invariant symbols == old(symbols) && i <= nsymb && more[..i] == symbols[..i]
      {
        more[i] := symbols[i];
        i := i + 1;
      }
      symbols := more;
    }

    /** sym_free. */
    method FreeSymbol(n: int)
      requires Valid() && (n < 0 || Live(Table(), n))
      modifies symbols
      ensures Valid() && Table() == Freed(old(Table()), n)
    {
      if n < 0 { return; }
      var y := symbols[n];
      symbols[n] := if y.ref - 1 == 0 then Free else Used(y.ref - 1, y.text);
    }
  }
}

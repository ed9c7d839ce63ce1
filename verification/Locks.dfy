/** The locks of an object (src/src/opcodes2.c:385-457, src/src/message.c:226-281, src/src/execute.c:446-467): a
    list in the order of requests, and the tasks that pass, wait and give up. */
module Locks {
  import opened Values

  datatype Lock = Lock(name: string, task: int)

  predicate About(l: Lock, name: string) { SameText(l.name, name) }

  predicate Mine(l: Lock, name: string, task: int) { About(l, name) && l.task == task }

  // ---------------------------------------------------------------- the list

  /** Whether there is any lock of the name. */
  predicate Taken(ls: seq<Lock>, name: string) { ls != [] && (About(ls[0], name) || Taken(ls[1..], name)) }

  /** find_lock: somebody else's lock of the name comes first. */
  predicate Behind(ls: seq<Lock>, name: string, task: int) {
    ls != [] && if About(ls[0], name) then ls[0].task != task else Behind(ls[1..], name, task)
  }

  /** The first lock of the name by the task, or |ls|. */
  function Place(ls: seq<Lock>, name: string, task: int): (i: nat)
    ensures i <= |ls| && (i < |ls| ==> Mine(ls[i], name, task)) && forall j :: 0 <= j < i ==> !Mine(ls[j], name, task)
  {
    if ls == [] then 0 else if Mine(ls[0], name, task) then 0 else 1 + Place(ls[1..], name, task)
  }

  function Unlocked(ls: seq<Lock>, name: string, task: int): seq<Lock> {
    var i := Place(ls, name, task);
    if i < |ls| then ls[..i] + ls[i + 1..] else ls
  }

  /** clear_locks. */
  function Cleared(ls: seq<Lock>, task: int): seq<Lock> {
    if ls == [] then [] else Cleared(ls[..|ls| - 1], task) + if ls[|ls| - 1].task == task then [] else [ls[|ls| - 1]]
  }

  /** rs are the locks of ls that are not the task's, all of them and in order: k says where each was. */
  ghost predicate Others(ls: seq<Lock>, rs: seq<Lock>, task: int, k: seq<nat>) {
    && |k| == |rs| && (forall i :: 0 <= i < |k| ==> k[i] < |ls| && rs[i] == ls[k[i]] && rs[i].task != task)
    && (forall i, j :: 0 <= i < j < |k| ==> k[i] < k[j])
    && forall j :: 0 <= j < |ls| && ls[j].task != task ==> j in k
  }

  lemma {:induction false} ClearedIs(ls: seq<Lock>, task: int) returns (k: seq<nat>)
    ensures Others(ls, Cleared(ls, task), task, k)
    decreases |ls|
  {
    k := [];
    if ls != [] {
      var n := |ls| - 1;
      k := ClearedIs(ls[..n], task);
      OthersMore(ls, Cleared(ls[..n], task), task, k);
      if ls[n].task != task { k := k + [n]; }
    }
  }

  lemma OthersMore(ls: seq<Lock>, rs: seq<Lock>, task: int, k: seq<nat>)
    requires ls != [] && Others(ls[..|ls| - 1], rs, task, k)
    ensures var n := |ls| - 1;
            if ls[n].task == task then Others(ls, rs, task, k) else Others(ls, rs + [ls[n]], task, k + [n])
  {
    var n := |ls| - 1;
    assert forall j :: 0 <= j < n ==> ls[..n][j] == ls[j];
    assert forall j :: j in k ==> j in k + [n];
  }

  /** The list as the opcodes change it. */
  class LockList {
    var locks: seq<Lock>

    constructor ()
      ensures locks == []
    {
      locks := [];
    }

    /** op_lock: the request goes to the end; whether the task must wait. */
    method OpLock(name: string, msgid: int) returns (blocked: bool)
      modifies this
      ensures locks == old(locks) + [Lock(name, msgid)] && blocked == Taken(old(locks), name)
    {
      blocked := false;
      var i := 0;
      while i < |locks| && !blocked
        invariant i <= |locks| && locks == old(locks) && Taken(locks, name) == (blocked || Taken(locks[i..], name))
      {
        assert locks[i..][0] == locks[i] && locks[i..][1..] == locks[i + 1..];
        if About(locks[i], name) { blocked := true; }
        i := i + 1;
      }
      locks := locks + [Lock(name, msgid)];
    }

    /** op_unlock. */
    method OpUnlock(name: string, msgid: int) returns (found: bool)
      modifies this
      ensures locks == Unlocked(old(locks), name, msgid) && found == (Place(old(locks), name, msgid) < |old(locks)|)
    {
      var i := 0;
      while i < |locks|
        invariant i <= |locks| && locks == old(locks)
        invariant Place(locks, name, msgid) == i + Place(locks[i..], name, msgid)
      {
        assert locks[i..][0] == locks[i] && locks[i..][1..] == locks[i + 1..];
        if Mine(locks[i], name, msgid) {
          locks := locks[..i] + locks[i + 1..];
          return true;
        }
        i := i + 1;
      }
      return false;
    }

    /** find_lock. */
    method FindLock(name: string, msgid: int) returns (found: bool)
      ensures found == Behind(locks, name, msgid)
    {
      var i := 0;
      while i < |locks|
        invariant i <= |locks| && Behind(locks, name, msgid) == Behind(locks[i..], name, msgid)
      {
        assert locks[i..][0] == locks[i] && locks[i..][1..] == locks[i + 1..];
        if About(locks[i], name) { return locks[i].task != msgid; }
        i := i + 1;
      }
      return false;
    }

    /** clear_locks. */
    method ClearLocks(msgid: int)
      modifies this
      ensures locks == Cleared(old(locks), msgid)
    {
      var kept := [];
      var i := 0;
      while i < |locks|
        invariant i <= |locks| && locks == old(locks) && kept == Cleared(locks[..i], msgid)
      {
        assert locks[..i + 1][..i] == locks[..i];
        if locks[i].task != msgid { kept := kept + [locks[i]]; }
        i := i + 1;
      }
      assert locks[..i] == locks;
      locks := kept;
    }
  }

  // ---------------------------------------------------------------- the tasks

  /** Where the task is that asked for a lock: waiting, past lock(), or past it by a timeout or by being
      terminated. */
  datatype Phase = Waiting | Past | Forced

  /** A lock in the list, with the number of its request. */
  datatype Hold = Hold(lock: Lock, ticket: nat, phase: Phase)

  /** An object: its locks, the number of the next request, and the requests granted so far. */
  datatype State = State(holds: seq<Hold>, next: nat, granted: seq<Hold>)

  function LocksOf(hs: seq<Hold>): (ls: seq<Lock>)
    ensures |ls| == |hs| && forall i :: 0 <= i < |hs| ==> ls[i] == hs[i].lock
  {
    seq(|hs|, i requires 0 <= i < |hs| => hs[i].lock)
  }

  /** A task whose event is queued runs no instruction. */
  predicate Blocked(s: State, task: int) { exists i :: 0 <= i < |s.holds| && s.holds[i].lock.task == task && s.holds[i].phase.Waiting? }

  /** lock(name) by a task that has no lock of that name. */
  ghost predicate Request(s: State, s': State, name: string, task: int) {
    && !Blocked(s, task) && (forall i :: 0 <= i < |s.holds| ==> !Mine(s.holds[i].lock, name, task))
    && var h := Hold(Lock(name, task), s.next, if Taken(LocksOf(s.holds), name) then Waiting else Past);
       s' == State(s.holds + [h], s.next + 1, if h.phase.Past? then s.granted + [h] else s.granted)
  }

  /** process_lock_event: nobody else's lock comes first any more. */
  ghost predicate Grant(s: State, s': State, i: int) {
    && 0 <= i < |s.holds| && s.holds[i].phase.Waiting?
    && !Behind(LocksOf(s.holds), s.holds[i].lock.name, s.holds[i].lock.task)
    && var h := s.holds[i].(phase := Past);
       s' == State(s.holds[i := h], s.next, s.granted + [h])
  }

  /** The wait timed out, or the task was terminated: it goes on with an error, its lock still in the list. */
  ghost predicate Force(s: State, s': State, i: int) {
    0 <= i < |s.holds| && s.holds[i].phase.Waiting? && s' == s.(holds := s.holds[i := s.holds[i].(phase := Forced)])
  }

  ghost predicate Unlock(s: State, s': State, name: string, task: int) {
    && !Blocked(s, task)
    && var i := Place(LocksOf(s.holds), name, task);
       s' == s.(holds := if i < |s.holds| then s.holds[..i] + s.holds[i + 1..] else s.holds)
  }

  function Without(hs: seq<Hold>, task: int): seq<Hold> {
    if hs == [] then [] else Without(hs[..|hs| - 1], task) + if hs[|hs| - 1].lock.task == task then [] else [hs[|hs| - 1]]
  }

  /** The method of the task ends, however it does. */
  ghost predicate End(s: State, s': State, task: int) {
    !Blocked(s, task) && s' == s.(holds := Without(s.holds, task))
  }

  datatype Move = DoRequest(name: string, task: int) | DoGrant(i: int) | DoForce(i: int) | DoUnlock(name: string, task: int)
    | DoEnd(task: int)

  ghost predicate Step(s: State, s': State, m: Move) {
    match m
    case DoRequest(name, task) => Request(s, s', name, task)
    case DoGrant(i) => Grant(s, s', i)
    case DoForce(i) => Force(s, s', i)
    case DoUnlock(name, task) => Unlock(s, s', name, task)
    case DoEnd(task) => End(s, s', task)
  }

  const START := State([], 0, [])

  /** The states of a run from an object without locks, and the moves between them. */
  ghost predicate Run(ss: seq<State>, ms: seq<Move>) {
    && |ss| == |ms| + 1 && ss[0] == START
    && forall k :: 0 <= k < |ms| ==> Step(ss[k], ss[k + 1], ms[k])
  }

  lemma {:induction false} ListsAgree(hs: seq<Hold>, task: int)
    ensures LocksOf(Without(hs, task)) == Cleared(LocksOf(hs), task)
    decreases |hs|
  {
    if hs != [] {
      var n := |hs| - 1;
      ListsAgree(hs[..n], task);
      assert LocksOf(hs)[..n] == LocksOf(hs[..n]);
    }
  }

  /** The list of the state is what the opcodes make of it. */
  lemma StepLists(s: State, s': State, m: Move)
    requires Step(s, s', m)
    ensures LocksOf(s'.holds) ==
            match m
            case DoRequest(name, task) => LocksOf(s.holds) + [Lock(name, task)]
            case DoUnlock(name, task) => Unlocked(LocksOf(s.holds), name, task)
            case DoEnd(task) => Cleared(LocksOf(s.holds), task)
            case _ => LocksOf(s.holds)
  {
    if m.DoEnd? { ListsAgree(s.holds, m.task); }
  }

  // ---------------------------------------------------------------- what every run keeps

  predicate Same(h: Hold, g: Hold) { SameText(h.lock.name, g.lock.name) }

  /** Requests stand in order, and whoever is past lock() has the first lock of its name. */
  ghost predicate Fair(hs: seq<Hold>) {
    forall i, j :: 0 <= i < j < |hs| ==>
      hs[i].ticket < hs[j].ticket && (Same(hs[i], hs[j]) ==> !hs[j].phase.Past? && hs[i].lock.task != hs[j].lock.task)
  }

  /** Whatever has been granted was asked for before anything still waiting for the same name. */
  ghost predicate Ahead(granted: seq<Hold>, h: Hold) {
    forall g :: 0 <= g < |granted| && Same(granted[g], h) ==>
      granted[g].ticket < h.ticket || (granted[g].ticket == h.ticket && h.phase.Past?)
  }

  ghost predicate InTurn(granted: seq<Hold>) {
    forall f, g :: 0 <= f < g < |granted| && Same(granted[f], granted[g]) ==> granted[f].ticket < granted[g].ticket
  }

  ghost predicate Below(hs: seq<Hold>, n: nat) { forall i :: 0 <= i < |hs| ==> hs[i].ticket < n }

  ghost predicate Inv(s: State) {
    && Fair(s.holds) && InTurn(s.granted) && Below(s.holds, s.next) && Below(s.granted, s.next)
    && forall i :: 0 <= i < |s.holds| ==> Ahead(s.granted, s.holds[i])
  }

  lemma {:induction false} TakenIs(ls: seq<Lock>, name: string)
    ensures Taken(ls, name) <==> exists i :: 0 <= i < |ls| && About(ls[i], name)
  {
    if ls != [] {
      TakenIs(ls[1..], name);
      assert forall i :: 0 < i < |ls| ==> ls[i] == ls[1..][i - 1];
      if Taken(ls[1..], name) {
        var i :| 0 <= i < |ls| - 1 && About(ls[1..][i], name);
        assert About(ls[i + 1], name);
      }
    }
  }

  /** A task is not behind exactly when the first lock of the name is its own, if there is any. */
  lemma {:induction false} BehindIs(ls: seq<Lock>, name: string, task: int, i: nat)
    requires i < |ls| && Mine(ls[i], name, task)
    requires forall j :: 0 <= j < |ls| && j != i ==> !Mine(ls[j], name, task)
    ensures !Behind(ls, name, task) <==> forall j :: 0 <= j < i ==> !About(ls[j], name)
    decreases |ls|
  {
    if i > 0 {
      if About(ls[0], name) {
        assert !Mine(ls[0], name, task);
      } else {
        assert ls[1..][i - 1] == ls[i];
        BehindIs(ls[1..], name, task, i - 1);
        assert forall j :: 0 < j < |ls| ==> ls[j] == ls[1..][j - 1];
        assert forall j :: 0 <= j < |ls| - 1 ==> ls[1..][j] == ls[j + 1];
      }
    }
  }

  /** hs with some entries taken out: k says where each entry that is left was. */
  ghost predicate Thinned(hs: seq<Hold>, gs: seq<Hold>, k: seq<nat>) {
    && |k| == |gs| && (forall i :: 0 <= i < |k| ==> k[i] < |hs| && gs[i] == hs[k[i]])
    && forall i, j :: 0 <= i < j < |k| ==> k[i] < k[j]
  }

  lemma {:induction false} WithoutThins(hs: seq<Hold>, task: int) returns (k: seq<nat>)
    ensures Thinned(hs, Without(hs, task), k)
    decreases |hs|
  {
    if hs == [] {
      k := [];
    } else {
      var n := |hs| - 1;
      k := WithoutThins(hs[..n], task);
      ThinnedMore(hs, Without(hs[..n], task), k);
      if hs[n].lock.task != task { k := k + [n]; }
    }
  }

  lemma ThinnedMore(hs: seq<Hold>, gs: seq<Hold>, k: seq<nat>)
    requires hs != [] && Thinned(hs[..|hs| - 1], gs, k)
    ensures Thinned(hs, gs, k) && Thinned(hs, gs + [hs[|hs| - 1]], k + [|hs| - 1])
  {
  }

  lemma CutThins(hs: seq<Hold>, i: nat) returns (k: seq<nat>)
    requires i < |hs|
    ensures Thinned(hs, hs[..i] + hs[i + 1..], k)
  {
    k := seq(|hs| - 1, j requires j >= 0 => if j < i then j else j + 1);
  }

  lemma ThinnedInv(s: State, gs: seq<Hold>, k: seq<nat>)
    requires Inv(s) && Thinned(s.holds, gs, k)
    ensures Inv(s.(holds := gs))
  {
  }

  lemma FairMore(hs: seq<Hold>, h: Hold)
    requires Fair(hs) && Below(hs, h.ticket)
    requires forall i :: 0 <= i < |hs| && Same(hs[i], h) ==> !h.phase.Past? && hs[i].lock.task != h.lock.task
    ensures Fair(hs + [h])
  {
  }

  lemma InTurnMore(granted: seq<Hold>, h: Hold)
    requires InTurn(granted) && forall g :: 0 <= g < |granted| && Same(granted[g], h) ==> granted[g].ticket < h.ticket
    ensures InTurn(granted + [h])
  {
  }

  lemma AheadMore(granted: seq<Hold>, h: Hold, x: Hold)
    requires Ahead(granted, x) && (Same(h, x) ==> h.ticket < x.ticket || (h.ticket == x.ticket && x.phase.Past?))
    ensures Ahead(granted + [h], x)
  {
  }

  lemma RequestKeeps(s: State, s': State, name: string, task: int)
    requires Inv(s) && Request(s, s', name, task)
    ensures Inv(s')
  {
    var ls, h := LocksOf(s.holds), s'.holds[|s.holds|];
    TakenIs(ls, name);
    forall i | 0 <= i < |s.holds| && Same(s.holds[i], h) ensures !h.phase.Past? && s.holds[i].lock.task != task {
      assert About(ls[i], name);
      assert !Mine(s.holds[i].lock, name, task);
    }
    FairMore(s.holds, h);
    assert forall i :: 0 <= i < |s.holds| && Same(h, s.holds[i]) ==> Same(s.holds[i], h);
    if h.phase.Past? {
      InTurnMore(s.granted, h);
      forall i | 0 <= i < |s'.holds| ensures Ahead(s'.granted, s'.holds[i]) {
        AheadMore(s.granted, h, s'.holds[i]);
      }
    }
  }

  lemma GrantKeeps(s: State, s': State, i: int)
    requires Inv(s) && Grant(s, s', i)
    ensures Inv(s')
  {
    var was, h, ls := s.holds[i], s'.holds[i], LocksOf(s.holds);
    OnlyMine(s.holds, i);
    BehindIs(ls, h.lock.name, h.lock.task, i);
    assert forall j :: 0 <= j < i ==> ls[j] == s.holds[j].lock;
    FairGranted(s.holds, i, h);
    assert Ahead(s.granted, was);
    InTurnMore(s.granted, h);
    forall j | 0 <= j < |s'.holds| ensures Ahead(s'.granted, s'.holds[j]) {
      assert Ahead(s.granted, s.holds[j]);
      if Same(h, s'.holds[j]) && j < i { assert Same(s.holds[j], h); }
      AheadMore(s.granted, h, s'.holds[j]);
    }
  }

  lemma OnlyMine(hs: seq<Hold>, i: nat)
    requires Fair(hs) && i < |hs|
    ensures forall j :: 0 <= j < |hs| && j != i ==> !Mine(LocksOf(hs)[j], hs[i].lock.name, hs[i].lock.task)
  {
    forall j | 0 <= j < |hs| && j != i ensures !Mine(LocksOf(hs)[j], hs[i].lock.name, hs[i].lock.task) {
      assert Same(hs[j], hs[i]) ==> Same(hs[i], hs[j]);
    }
  }

  lemma FairGranted(hs: seq<Hold>, i: nat, h: Hold)
    requires Fair(hs) && i < |hs| && h == hs[i].(phase := Past) && forall j :: 0 <= j < i ==> !Same(hs[j], h)
    ensures Fair(hs[i := h])
  {
  }

  /** Every move of every task keeps the order. */
  lemma StepKeeps(s: State, s': State, m: Move)
    requires Inv(s) && Step(s, s', m)
    ensures Inv(s')
  {
    match m {
      case DoRequest(name, task) => RequestKeeps(s, s', name, task);
      case DoGrant(i) => GrantKeeps(s, s', i);
      case DoForce(i) =>
      case DoUnlock(name, task) =>
        var i := Place(LocksOf(s.holds), name, task);
        if i < |s.holds| {
          var k := CutThins(s.holds, i);
          ThinnedInv(s, s'.holds, k);
        }
      case DoEnd(task) =>
        var k := WithoutThins(s.holds, task);
        ThinnedInv(s, s'.holds, k);
    }
  }

  lemma {:induction false} RunKeeps(ss: seq<State>, ms: seq<Move>)
    requires Run(ss, ms)
    ensures Inv(ss[|ss| - 1])
    decreases |ms|
  {
    if ms != [] {
      var n := |ms| - 1;
      RunKeeps(ss[..n + 1], ms[..n]);
      StepKeeps(ss[n], ss[n + 1], ms[n]);
    }
  }

  // ---------------------------------------------------------------- the main results

  /** In every reachable state at most one task is past lock() for a name without having been forced, and it
      has the oldest request of that name in the list. */
  lemma MutualExclusion(ss: seq<State>, ms: seq<Move>, i: nat, j: nat)
    requires Run(ss, ms)
    ensures var hs := ss[|ss| - 1].holds;
            i < |hs| && j < |hs| && i != j && hs[i].phase.Past? && Same(hs[i], hs[j]) ==>
              !hs[j].phase.Past? && hs[i].lock.task != hs[j].lock.task && hs[i].ticket < hs[j].ticket
  {
    RunKeeps(ss, ms);
    var hs := ss[|ss| - 1].holds;
    if i < |hs| && j < |hs| && Same(hs[i], hs[j]) { assert Same(hs[j], hs[i]); }
  }

  /** Locks of a name are granted in the order they were asked for. */
  lemma FirstComeFirstServed(ss: seq<State>, ms: seq<Move>, f: nat, g: nat)
    requires Run(ss, ms)
    ensures var granted := ss[|ss| - 1].granted;
            f < g < |granted| && Same(granted[f], granted[g]) ==> granted[f].ticket < granted[g].ticket
  {
    RunKeeps(ss, ms);
  }

  /** A waiting task is let past exactly when no older lock of the name is left. */
  lemma GrantedIff(ss: seq<State>, ms: seq<Move>, i: nat)
    requires Run(ss, ms)
    ensures var s := ss[|ss| - 1];
            i < |s.holds| ==>
              (!Behind(LocksOf(s.holds), s.holds[i].lock.name, s.holds[i].lock.task)
               <==> forall j :: 0 <= j < |s.holds| && Same(s.holds[j], s.holds[i]) ==> s.holds[j].ticket >= s.holds[i].ticket)
  {
    RunKeeps(ss, ms);
    var s := ss[|ss| - 1];
    if i < |s.holds| {
      var h, ls := s.holds[i], LocksOf(s.holds);
      OnlyMine(s.holds, i);
      BehindIs(ls, h.lock.name, h.lock.task, i);
      assert forall j :: 0 <= j < |ls| ==> (About(ls[j], h.lock.name) <==> Same(s.holds[j], h));
    }
  }
}

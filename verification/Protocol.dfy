/** Calls to another server (src/src/message.c:92-116, 160-201, 296-366, 483-507, src/src/servers.c:393-407,
    src/src/serverio.c:86-203, src/src/execute.c:360-381). Packets may be lost, doubled and overtaken: whatever has
    been put on the wire can be delivered any number of times, at any time, or never. */
module Protocol {
  import opened Timers

  const MSG_TIMEOUT := 30
  const MSG_RETRY := 1500

  datatype Reply = Return | Raise | Halt

  /** What the name of a call's message means to the server it is sent to: a method, a verb to be looked for in the
      text of a command, or, when it is that of a reply, that it is taken for one. */
  datatype Kind = Plain | CallVerb | ReplyName

  datatype Packet = Packet(id: int, reply: Reply)

  /** A task that waits for the reply to a call; epoch is the connection the call was made in. */
  datatype Wait = Wait(id: int, sentAt: Time, timeoutAt: Time, retryAt: Time, interval: nat, resent: nat)

  /** How a task comes to be resumed. */
  datatype End = Returned | RaisedBack | Halted | TimedOut | SendFailed | Terminated

  datatype Outcome = Outcome(id: int, end: End, resent: nat)

  /** A call that was queued, and in which connection. */
  datatype Entry = Entry(epoch: nat, id: int)

  /** The calling server, the wire, and the called server. births tells in which connection each call was made,
      named which messages of others have the name of a reply, unmatched which commands found no verb. */
  datatype State = State(
    now: Time, births: seq<nat>, kinds: seq<Kind>, waits: seq<Wait>, ends: seq<Outcome>, inbox: seq<Packet>,
    calls: set<int>, replies: set<Packet>,
    connected: bool, last: int, epoch: nat, queue: seq<int>, queued: seq<Entry>, started: seq<int>, refused: seq<int>,
    running: seq<int>, unmatched: set<int>, named: set<Packet>)

  // ---------------------------------------------------------------- the caller

  function NewWait(id: int, now: Time): Wait {
    Wait(id, now, now.(sec := now.sec + MSG_TIMEOUT), AddMsec(now, MSG_RETRY), MSG_RETRY, 0)
  }

  /** send_message_and_block: a new number, a packet, and an event; when the server is down only the number is
      used up. */
  function Sent(s: State, kind: Kind, up: bool): State {
    var id, u := |s.births|, s.(births := s.births + [s.epoch], kinds := s.kinds + [kind]);
    if up then u.(calls := s.calls + {id}, waits := s.waits + [NewWait(id, s.now)]) else u
  }

  function Cut<T>(s: seq<T>, i: nat): seq<T>
    requires i < |s|
  {
    s[..i] + s[i + 1..]
  }

  /** find_reply. */
  function ReplyFor(inbox: seq<Packet>, id: int): (i: nat)
    ensures i <= |inbox| && (i < |inbox| ==> inbox[i].id == id) && forall j :: 0 <= j < i ==> inbox[j].id != id
  {
    if inbox == [] then 0 else if inbox[0].id == id then 0 else 1 + ReplyFor(inbox[1..], id)
  }

  function EndOf(r: Reply): End {
    match r case Return => Returned case Raise => RaisedBack case Halt => Halted
  }

  function Ended(s: State, i: nat, end: End): State
    requires i < |s.waits|
  {
    s.(waits := Cut(s.waits, i), ends := s.ends + [Outcome(s.waits[i].id, end, s.waits[i].resent)])
  }

  /** The interval doubles before it is added. */
  function Resent(w: Wait, now: Time): Wait {
    w.(interval := 2 * w.interval, retryAt := AddMsec(now, 2 * w.interval), resent := w.resent + 1)
  }

  /** process_message_event: a reply, else the timeout, else a retransmission, which may find the server down. */
  function Looked(s: State, i: nat, up: bool): State
    requires i < |s.waits|
  {
    var w := s.waits[i];
    var r := ReplyFor(s.inbox, w.id);
    if r < |s.inbox| then Ended(s, i, EndOf(s.inbox[r].reply)).(inbox := Cut(s.inbox, r))
    else if Before(w.timeoutAt, s.now) then Ended(s, i, TimedOut)
    else if Before(w.retryAt, s.now) then
      var u := s.(waits := s.waits[i := Resent(w, s.now)]);
      if up then u.(calls := u.calls + {w.id}) else Ended(u, i, SendFailed)
    else s
  }

  // ---------------------------------------------------------------- the called server

  /** serv_discardmsg. */
  predicate Discards(last: int, id: int) { id <= last }

  predicate Of(s: State, id: int, kind: Kind) { 0 <= id < |s.kinds| && s.kinds[id] == kind }

  /** A call arrives. One with the name of a reply is no call here. */
  function Received(s: State, id: int): State {
    if !s.connected || Of(s, id, ReplyName) || Discards(s.last, id) then s
    else s.(last := id, queue := s.queue + [id], queued := s.queued + [Entry(s.epoch, id)])
  }

  datatype Move =
    | DoSend(kind: Kind, up: bool)
    | DoTick(now: Time)
    | DoLook(i: nat, up: bool)
    | DoTerminate(i: nat)         // the waiting task is killed
    | DoSweep(i: nat)             // a reply nobody awaits is thrown away
    | DoDeliver(id: int)          // a call arrives
    | DoAnswer(p: Packet)         // a reply arrives
    | DoConnect                   // a connection begins anew
    | DoDisconnect
    | DoStart(i: nat)             // the method runs
    | DoRefuse(i: nat)            // no such object or method: an error goes back
    | DoNoVerb(i: nat)            // no verb matches the command: a return goes back, and nothing has run
    | DoNamed(p: Packet)          // a method somewhere sends a message of its own that has the name of a reply
    | DoFinish(i: nat, r: Reply)  // the method ends with a return or an error
    | DoHalt(i: nat)              // it ends without a word

  ghost predicate Step(s: State, t: State, m: Move) {
    match m
    case DoSend(kind, up) => t == Sent(s, kind, up)
    case DoTick(now) => Normal(now) && Value(now) >= Value(s.now) && t == s.(now := now)
    case DoLook(i, up) => i < |s.waits| && t == Looked(s, i, up)
    case DoTerminate(i) => i < |s.waits| && t == Ended(s, i, Terminated)
    case DoSweep(i) =>
      i < |s.inbox| && (forall j :: 0 <= j < |s.waits| ==> s.waits[j].id != s.inbox[i].id) && t == s.(inbox := Cut(s.inbox, i))
    case DoDeliver(id) => id in s.calls && t == Received(s, id)
    case DoAnswer(p) => p in s.replies && t == s.(inbox := s.inbox + [p])
    case DoConnect => t == s.(connected := true, last := -1, epoch := s.epoch + 1)
    case DoDisconnect => t == s.(connected := false)
    case DoStart(i) =>
      i < |s.queue| && t == s.(queue := Cut(s.queue, i), started := s.started + [s.queue[i]], running := s.running + [s.queue[i]])
    case DoRefuse(i) =>
      && i < |s.queue|
      && t == s.(queue := Cut(s.queue, i), refused := s.refused + [s.queue[i]], replies := s.replies + {Packet(s.queue[i], Raise)})
    case DoNoVerb(i) =>
      && i < |s.queue| && Of(s, s.queue[i], CallVerb)
      && t == s.(queue := Cut(s.queue, i), refused := s.refused + [s.queue[i]], unmatched := s.unmatched + {s.queue[i]},
                 replies := s.replies + {Packet(s.queue[i], Return)})
    case DoNamed(p) => t == s.(named := s.named + {p}, replies := s.replies + {p})
    case DoFinish(i, r) =>
      i < |s.running| && !r.Halt? && t == s.(running := Cut(s.running, i), replies := s.replies + {Packet(s.running[i], r)})
    case DoHalt(i) => i < |s.running| && t == s.(running := Cut(s.running, i))
  }

  function Start(now: Time, connected: bool): State {
    State(now, [], [], [], [], [], {}, {}, connected, -1, 0, [], [], [], [], [], {}, {})
  }

  ghost predicate Run(ss: seq<State>, ms: seq<Move>) {
    && |ss| == |ms| + 1 && Normal(ss[0].now) && ss[0] == Start(ss[0].now, ss[0].connected)
    && forall k :: 0 <= k < |ms| ==> Step(ss[k], ss[k + 1], ms[k])
  }

  // ---------------------------------------------------------------- resumed at most once

  predicate Fresh(w: Wait, o: Outcome) { w.id != o.id }

  /** No call has two events, two outcomes, or one of each; all numbers have been given out. */
  ghost predicate Single(s: State) {
    && (forall i, j :: 0 <= i < j < |s.waits| ==> s.waits[i].id != s.waits[j].id)
    && (forall i, j :: 0 <= i < j < |s.ends| ==> s.ends[i].id != s.ends[j].id)
    && (forall i, j :: 0 <= i < |s.waits| && 0 <= j < |s.ends| ==> Fresh(s.waits[i], s.ends[j]))
    && (forall i :: 0 <= i < |s.waits| ==> 0 <= s.waits[i].id < |s.births|)
    && (forall j :: 0 <= j < |s.ends| ==> 0 <= s.ends[j].id < |s.births|)
  }

  lemma EndedSingle(s: State, i: nat, end: End)
    requires Single(s) && i < |s.waits|
    ensures Single(Ended(s, i, end))
  {
    var t := Ended(s, i, end);
    forall j | 0 <= j < |t.waits| ensures t.waits[j] == s.waits[if j < i then j else j + 1] { }
  }

  lemma SingleKept(s: State, t: State, m: Move)
    requires Single(s) && Step(s, t, m)
    ensures Single(t)
  {
    match m {
      case DoLook(i, up) => LookedSingle(s, i, up);
      case DoTerminate(i) => EndedSingle(s, i, Terminated);
      case _ =>
    }
  }

  lemma LookedSingle(s: State, i: nat, up: bool)
    requires Single(s) && i < |s.waits|
    ensures Single(Looked(s, i, up))
  {
    var w := s.waits[i];
    var r := ReplyFor(s.inbox, w.id);
    if r < |s.inbox| {
      EndedSingle(s, i, EndOf(s.inbox[r].reply));
    } else if Before(w.timeoutAt, s.now) {
      EndedSingle(s, i, TimedOut);
    } else if Before(w.retryAt, s.now) {
      ResentSingle(s, i, up);
    }
  }

  lemma ResentSingle(s: State, i: nat, up: bool)
    requires Single(s) && i < |s.waits|
    ensures var u := s.(waits := s.waits[i := Resent(s.waits[i], s.now)]);
            Single(u) && Single(u.(calls := u.calls + {s.waits[i].id})) && Single(Ended(u, i, SendFailed))
  {
    var u := s.(waits := s.waits[i := Resent(s.waits[i], s.now)]);
    forall j, k | 0 <= j < |u.waits| && 0 <= k < |u.ends| ensures Fresh(u.waits[j], u.ends[k]) {
      assert Fresh(s.waits[j], s.ends[k]);
    }
    EndedSingle(u, i, SendFailed);
  }

  // ---------------------------------------------------------------- queued at most once in a connection

  /** What has been queued: connection after connection, in each the numbers go up; no call is queued in a
      connection before the one it was made in. */
  ghost predicate Filtered(s: State) {
    && (forall i, j :: 0 <= i < j < |s.queued| ==> Later(s.queued[i], s.queued[j]))
    && (forall i :: 0 <= i < |s.queued| ==> s.queued[i].epoch <= s.epoch && (s.queued[i].epoch == s.epoch ==> s.queued[i].id <= s.last))
    && (forall i :: 0 <= i < |s.queued| ==> Made(s, s.queued[i]))
  }

  /** The call was made, and in the connection of the entry or before it. */
  ghost predicate Made(s: State, e: Entry) { e.id in s.calls && 0 <= e.id < |s.births| && s.births[e.id] <= e.epoch }

  predicate Later(a: Entry, b: Entry) { a.epoch < b.epoch || (a.epoch == b.epoch && a.id < b.id) }

  ghost predicate Born(s: State) {
    && (forall id :: id in s.calls ==> 0 <= id < |s.births|)
    && (forall i :: 0 <= i < |s.births| ==> s.births[i] <= s.epoch)
    && s.last >= -1 && |s.kinds| == |s.births|
  }

  lemma BornKept(s: State, t: State, m: Move)
    requires Single(s) && Born(s) && Step(s, t, m)
    ensures Born(t)
  {
    if m.DoLook? { assert 0 <= s.waits[m.i].id < |s.births|; }
  }

  lemma FilteredKept(s: State, t: State, m: Move)
    requires Single(s) && Born(s) && Filtered(s) && Step(s, t, m)
    ensures Filtered(t)
  {
    match m {
      case DoDeliver(id) => DeliverFiltered(s, t, id);
      case _ => OthersQueue(s, t, m); SameFiltered(s, t);
    }
  }

  lemma DeliverFiltered(s: State, t: State, id: int)
    requires Born(s) && Filtered(s) && Step(s, t, DoDeliver(id))
    ensures Filtered(t)
  {
    if t != s { QueuedFiltered(s, t, Entry(s.epoch, id)); }
  }

  lemma OthersQueue(s: State, t: State, m: Move)
    requires Single(s) && Step(s, t, m) && !m.DoDeliver?
    ensures t.queued == s.queued && s.calls <= t.calls && s.births <= t.births
    ensures (t.epoch == s.epoch && t.last == s.last) || t.epoch == s.epoch + 1
  {
  }

  lemma SameFiltered(s: State, t: State)
    requires Filtered(s) && t.queued == s.queued && s.calls <= t.calls && s.births <= t.births
    requires (t.epoch == s.epoch && t.last == s.last) || t.epoch == s.epoch + 1
    ensures Filtered(t)
  {
    forall i | 0 <= i < |s.queued| ensures Made(t, s.queued[i]) { assert Made(s, s.queued[i]); }
  }

  lemma QueuedFiltered(s: State, t: State, e: Entry)
    requires Born(s) && Filtered(s) && e.epoch == s.epoch && e.id > s.last && e.id in s.calls
    requires t == s.(last := e.id, queue := s.queue + [e.id], queued := s.queued + [e])
    ensures Filtered(t)
  {
    forall i | 0 <= i < |t.queued| ensures Made(t, t.queued[i]) {
      if i < |s.queued| { assert Made(s, s.queued[i]); }
    }
  }

  // ---------------------------------------------------------------- nothing lost, nothing made up

  function IdsOf(es: seq<Entry>): seq<int> { if es == [] then [] else IdsOf(es[..|es| - 1]) + [es[|es| - 1].id] }

  /** Every queued call is still queued, or was started, or was refused; once for each time it was queued. */
  ghost predicate Flows(s: State) {
    multiset(IdsOf(s.queued)) == multiset(s.queue) + multiset(s.started) + multiset(s.refused)
  }

  lemma CutMultiset(q: seq<int>, i: nat)
    requires i < |q|
    ensures multiset(q) == multiset(Cut(q, i)) + multiset{q[i]}
  {
    assert q == q[..i] + [q[i]] + q[i + 1..];
  }

  lemma FlowsKept(s: State, t: State, m: Move)
    requires Flows(s) && Step(s, t, m)
    ensures Flows(t)
  {
    match m {
      case DoDeliver(id) => DeliverFlows(s, t, id);
      case DoStart(i) => StartFlows(s, t, i);
      case DoRefuse(i) => RefuseFlows(s, t, i);
      case DoNoVerb(i) => NoVerbFlows(s, t, i);
      case DoLook(i, up) => LookedSame(s, i, up);
      case _ => OthersFlow(s, t, m);
    }
  }

  lemma DeliverFlows(s: State, t: State, id: int)
    requires Flows(s) && Step(s, t, DoDeliver(id))
    ensures Flows(t)
  {
    if t != s {
      IdsMore(s.queued, Entry(s.epoch, id));
      MoreMultiset(s.queue, id);
    }
  }

  lemma StartFlows(s: State, t: State, i: nat)
    requires Flows(s) && Step(s, t, DoStart(i))
    ensures Flows(t)
  {
    MovedFlows(multiset(IdsOf(s.queued)), s.queue, i, s.started, s.refused);
  }

  lemma RefuseFlows(s: State, t: State, i: nat)
    requires Flows(s) && Step(s, t, DoRefuse(i))
    ensures Flows(t)
  {
    MovedFlows(multiset(IdsOf(s.queued)), s.queue, i, s.refused, s.started);
  }

  lemma NoVerbFlows(s: State, t: State, i: nat)
    requires Flows(s) && Step(s, t, DoNoVerb(i))
    ensures Flows(t)
  {
    MovedFlows(multiset(IdsOf(s.queued)), s.queue, i, s.refused, s.started);
  }

  lemma OthersFlow(s: State, t: State, m: Move)
    requires Step(s, t, m) && !m.DoDeliver? && !m.DoStart? && !m.DoRefuse? && !m.DoNoVerb? && !m.DoLook?
    ensures t.queued == s.queued && t.queue == s.queue && t.started == s.started && t.refused == s.refused
  {
  }

  lemma LookedSame(s: State, i: nat, up: bool)
    requires i < |s.waits|
    ensures var t := Looked(s, i, up);
            t.queued == s.queued && t.queue == s.queue && t.started == s.started && t.refused == s.refused
  {
  }

  /** One of the queue goes to a. */
  lemma MovedFlows(all: multiset<int>, q: seq<int>, i: nat, a: seq<int>, b: seq<int>)
    requires i < |q| && all == multiset(q) + multiset(a) + multiset(b)
    ensures all == multiset(Cut(q, i)) + multiset(a + [q[i]]) + multiset(b)
  {
    CutMultiset(q, i);
    MoreMultiset(a, q[i]);
  }

  lemma IdsMore(es: seq<Entry>, e: Entry)
    ensures multiset(IdsOf(es + [e])) == multiset(IdsOf(es)) + multiset{e.id}
  {
    assert (es + [e])[..|es|] == es;
  }

  lemma MoreMultiset(q: seq<int>, x: int)
    ensures multiset(q + [x]) == multiset(q) + multiset{x}
  {
  }

  /** Where a return with this number can come from: the method ran, or no verb matched the command, or it is
      not a return at all but a message with the name of one. */
  ghost predicate Sourced(s: State, id: int) {
    id in s.started || id in s.unmatched || Packet(id, Return) in s.named
  }

  /** Every return has such a source, on the wire, in the queue and at the caller. */
  ghost predicate Honest(s: State) {
    && (forall i :: 0 <= i < |s.running| ==> s.running[i] in s.started)
    && (forall p :: p in s.replies && p.reply.Return? ==> Sourced(s, p.id))
    && (forall i :: 0 <= i < |s.inbox| ==> s.inbox[i] in s.replies)
    && (forall i :: 0 <= i < |s.ends| && s.ends[i].end.Returned? ==> Sourced(s, s.ends[i].id))
    && (forall id :: id in s.unmatched ==> id in s.refused && Of(s, id, CallVerb))
  }

  lemma HonestKept(s: State, t: State, m: Move)
    requires Honest(s) && Step(s, t, m)
    ensures Honest(t)
  {
    match m {
      case DoLook(i, up) => LookedHonest(s, i, up);
      case DoFinish(i, r) => FinishHonest(s, t, i, r);
      case DoNoVerb(i) => NoVerbHonest(s, t, i);
      case DoStart(i) => StartHonest(s, t, i);
      case DoSend(kind, up) => SendHonest(s, t, kind, up);
      case DoRefuse(i) => MoreReplies(s, t);
      case DoNamed(p) => MoreReplies(s, t);
      case DoTerminate(i) => MoreReplies(s, t);
      case _ => OthersHonest(s, t, m);
    }
  }

  lemma FinishHonest(s: State, t: State, i: nat, r: Reply)
    requires Honest(s) && Step(s, t, DoFinish(i, r))
    ensures Honest(t)
  {
    MoreSourced(s, t);
    assert Sourced(s, s.running[i]);
  }

  lemma NoVerbHonest(s: State, t: State, i: nat)
    requires Honest(s) && Step(s, t, DoNoVerb(i))
    ensures Honest(t)
  {
    MoreSourced(s, t);
  }

  lemma StartHonest(s: State, t: State, i: nat)
    requires Honest(s) && Step(s, t, DoStart(i))
    ensures Honest(t)
  {
    MoreSourced(s, t);
  }

  lemma SendHonest(s: State, t: State, kind: Kind, up: bool)
    requires Honest(s) && Step(s, t, DoSend(kind, up))
    ensures Honest(t)
  {
    MoreSourced(s, t);
    forall id | id in t.unmatched ensures Of(t, id, CallVerb) { assert Of(s, id, CallVerb); }
  }

  /** More replies of no bad kind, and more ends that are not returns. */
  lemma MoreReplies(s: State, t: State)
    requires Honest(s)
    requires t == s.(queue := t.queue, refused := t.refused, replies := t.replies, named := t.named, waits := t.waits, ends := t.ends)
    requires s.replies <= t.replies && s.named <= t.named && forall id :: id in s.refused ==> id in t.refused
    requires forall p :: p in t.replies - s.replies ==> p.reply.Raise? || p in t.named
    requires |t.ends| >= |s.ends| && forall i :: 0 <= i < |t.ends| ==>
               if i < |s.ends| then t.ends[i] == s.ends[i] else !t.ends[i].end.Returned?
    ensures Honest(t)
  {
    MoreSourced(s, t);
    forall p | p in t.replies && p.reply.Return? ensures Sourced(t, p.id) {
      if p in s.replies { assert Sourced(s, p.id); } else { assert p in t.replies - s.replies && p == Packet(p.id, Return); }
    }
  }

  lemma OthersHonest(s: State, t: State, m: Move)
    requires Honest(s) && Step(s, t, m)
    requires m.DoTick? || m.DoSweep? || m.DoDeliver? || m.DoAnswer? || m.DoConnect? || m.DoDisconnect? || m.DoHalt?
    ensures Honest(t)
  {
    MoreSourced(s, t);
  }

  lemma MoreSourced(s: State, t: State)
    requires s.unmatched <= t.unmatched && s.named <= t.named && forall id :: id in s.started ==> id in t.started
    ensures forall id :: Sourced(s, id) ==> Sourced(t, id)
  {
  }

  lemma LookedHonest(s: State, i: nat, up: bool)
    requires Honest(s) && i < |s.waits|
    ensures Honest(Looked(s, i, up))
  {
    var r := ReplyFor(s.inbox, s.waits[i].id);
    MoreSourced(s, Looked(s, i, up));
    if r < |s.inbox| { assert s.inbox[r] in s.replies; }
  }

  // ---------------------------------------------------------------- retransmissions

  function Pow2(n: nat): (p: nat)
    ensures p > 0
  {
    if n == 0 then 1 else 2 * Pow2(n - 1)
  }

  /** After n retransmissions the interval has doubled n times, and the next one is at least the sum of all
      intervals after the call. */
  ghost predicate BacksOff(w: Wait) {
    && Normal(w.sentAt) && Nearly(w.retryAt) && Value(w.timeoutAt) == Value(w.sentAt) + MSG_TIMEOUT * MILLION && Normal(w.timeoutAt)
    && w.interval == MSG_RETRY * Pow2(w.resent)
    && Value(w.retryAt) >= Value(w.sentAt) + 1000 * MSG_RETRY * (2 * Pow2(w.resent) - 1)
  }

  lemma Pow2Four(n: nat)
    requires Pow2(n) <= 21
    ensures n <= 4
  {
    Pow2Five();
    if n >= 5 { Pow2Grows(5, n); }
  }

  lemma Pow2Five()
    ensures Pow2(5) == 32
  {
    assert Pow2(2) == 4;
    assert Pow2(4) == 16;
  }

  lemma {:induction false} Pow2Grows(m: nat, n: nat)
    requires m <= n
    ensures Pow2(m) <= Pow2(n)
    decreases n
  {
    if m < n { Pow2Grows(m, n - 1); }
  }

  lemma ResentBacksOff(w: Wait, now: Time)
    requires BacksOff(w) && Normal(now) && !Before(w.timeoutAt, now) && Before(w.retryAt, now)
    ensures BacksOff(Resent(w, now)) && w.resent + 1 <= 4
  {
    AddMsecIs(now, 2 * w.interval);
    BeforeIs(w.retryAt, now);
    BeforeIs(w.timeoutAt, now);
    var p := Pow2(w.resent);
    assert Pow2(w.resent + 1) == 2 * p;
    assert 1000 * MSG_RETRY * (2 * p - 1) <= MSG_TIMEOUT * MILLION;
    Pow2Four(w.resent + 1);
  }

  lemma NewBacksOff(id: int, now: Time)
    requires Normal(now)
    ensures BacksOff(NewWait(id, now))
  {
    AddMsecIs(now, MSG_RETRY);
    assert Pow2(0) == 1;
  }

  ghost predicate Patient(s: State) {
    && Normal(s.now)
    && (forall i :: 0 <= i < |s.waits| ==> BacksOff(s.waits[i]) && s.waits[i].resent <= 4)
    && (forall i :: 0 <= i < |s.ends| ==> s.ends[i].resent <= 4)
  }

  lemma PatientKept(s: State, t: State, m: Move)
    requires Patient(s) && Step(s, t, m)
    ensures Patient(t)
  {
    match m {
      case DoSend(kind, up) => NewBacksOff(|s.births|, s.now);
      case DoLook(i, up) => LookedPatient(s, i, up);
      case _ =>
    }
  }

  lemma LookedPatient(s: State, i: nat, up: bool)
    requires Patient(s) && i < |s.waits|
    ensures Patient(Looked(s, i, up))
  {
    var w := s.waits[i];
    if !Before(w.timeoutAt, s.now) && Before(w.retryAt, s.now) { ResentBacksOff(w, s.now); }
  }

  // ---------------------------------------------------------------- every run

  ghost predicate Inv(s: State) { Single(s) && Born(s) && Filtered(s) && Flows(s) && Honest(s) && Patient(s) }

  lemma {:induction false} RunKeeps(ss: seq<State>, ms: seq<Move>)
    requires Run(ss, ms)
    ensures Inv(ss[|ss| - 1])
    decreases |ms|
  {
    hide Inv, Step;
    if ms == [] {
      StartKeeps(ss[0].now, ss[0].connected);
    } else {
      var n := |ms| - 1;
      RunKeeps(ss[..n + 1], ms[..n]);
      StepKeeps(ss[n], ss[n + 1], ms[n]);
    }
  }

  lemma StartKeeps(now: Time, connected: bool)
    requires Normal(now)
    ensures Inv(Start(now, connected))
  {
  }

  lemma StepKeeps(s: State, t: State, m: Move)
    requires Inv(s) && Step(s, t, m)
    ensures Inv(t)
  {
    hide Step, Single, Born, Filtered, Flows, Honest, Patient;
    SingleKept(s, t, m);
    BornKept(s, t, m);
    FilteredKept(s, t, m);
    FlowsKept(s, t, m);
    HonestKept(s, t, m);
    PatientKept(s, t, m);
  }

  /** A call is queued once in a connection, so no more often than there were connections for it. */
  lemma {:induction false} CountBound(es: seq<Entry>, id: int, lo: int, hi: int)
    requires forall i, j :: 0 <= i < j < |es| ==> Later(es[i], es[j])
    requires forall i :: 0 <= i < |es| && es[i].id == id ==> lo <= es[i].epoch <= hi
    requires lo <= hi + 1
    ensures multiset(IdsOf(es))[id] <= hi + 1 - lo
    decreases |es|
  {
    if es != [] {
      var n := |es| - 1;
      if es[n].id == id {
        forall i | 0 <= i < n && es[i].id == id ensures es[i].epoch <= es[n].epoch - 1 {
          assert Later(es[i], es[n]);
        }
        CountBound(es[..n], id, lo, es[n].epoch - 1);
      } else {
        CountBound(es[..n], id, lo, hi);
      }
    }
  }

  lemma {:induction false} IdsThere(es: seq<Entry>, id: int)
    requires id in IdsOf(es)
    ensures exists i :: 0 <= i < |es| && es[i].id == id
    decreases |es|
  {
    var n := |es| - 1;
    if es[n].id != id {
      IdsThere(es[..n], id);
      var i :| 0 <= i < n && es[..n][i].id == id;
      assert es[i].id == id;
    }
  }

  // ---------------------------------------------------------------- the main results

  /** However packets are lost, doubled or overtaken, a call is queued for execution at most once in a
      connection. */
  lemma QueuedOnce(ss: seq<State>, ms: seq<Move>, i: nat, j: nat)
    requires Run(ss, ms)
    ensures var q := ss[|ss| - 1].queued; i < j < |q| ==> q[i] != q[j]
  {
    RunKeeps(ss, ms);
    var q := ss[|ss| - 1].queued;
    if i < j < |q| { assert Later(q[i], q[j]); }
  }

  /** Its caller is resumed at most once, whether by a reply, a timeout, a failure to send or a kill, and does
      not wait any more when it has been. */
  lemma ResumedOnce(ss: seq<State>, ms: seq<Move>, i: nat, j: nat)
    requires Run(ss, ms)
    ensures var s := ss[|ss| - 1];
            && (i < j < |s.ends| ==> s.ends[i].id != s.ends[j].id)
            && (i < |s.waits| && j < |s.ends| ==> s.waits[i].id != s.ends[j].id)
  {
    RunKeeps(ss, ms);
    var s := ss[|ss| - 1];
    if i < |s.waits| && j < |s.ends| { assert Fresh(s.waits[i], s.ends[j]); }
  }

  /** A method runs for a call at most once for every connection since the call was made. */
  lemma StartedBound(ss: seq<State>, ms: seq<Move>, id: int)
    requires Run(ss, ms)
    ensures var s := ss[|ss| - 1];
            id in s.started ==> 0 <= id < |s.births| && s.births[id] <= s.epoch
                                && multiset(s.started)[id] <= s.epoch + 1 - s.births[id]
  {
    RunKeeps(ss, ms);
    var s := ss[|ss| - 1];
    if id in s.started {
      assert id in multiset(s.started) && id in multiset(IdsOf(s.queued));
      assert id in IdsOf(s.queued);
      IdsThere(s.queued, id);
      CountBound(s.queued, id, s.births[id], s.epoch);
      assert multiset(IdsOf(s.queued))[id] >= multiset(s.started)[id];
    }
  }

  /** A caller is resumed by a return only if its method ran, or no verb matched its command, or a method somewhere
      sent a message named return that happens to carry its number. If the method ran it ran exactly once, unless
      the connection was made anew since the call. */
  lemma ReturnedRan(ss: seq<State>, ms: seq<Move>, i: nat)
    requires Run(ss, ms)
    ensures var s := ss[|ss| - 1];
            i < |s.ends| && s.ends[i].end.Returned? ==>
              var id := s.ends[i].id;
              && 0 <= id < |s.births| && Sourced(s, id)
              && (id in s.unmatched ==> Of(s, id, CallVerb))
              && (id in s.started && s.births[id] == s.epoch ==> multiset(s.started)[id] == 1 && id !in s.unmatched)
  {
    RunKeeps(ss, ms);
    var s := ss[|ss| - 1];
    if i < |s.ends| && s.ends[i].end.Returned? && s.ends[i].id in s.started {
      StartedBound(ss, ms, s.ends[i].id);
      assert s.ends[i].id in multiset(s.started);
      if s.births[s.ends[i].id] == s.epoch { ServedOnce(s, s.ends[i].id); }
    }
  }

  /** In the connection a call was made in it is either started or refused. */
  lemma ServedOnce(s: State, id: int)
    requires Inv(s) && id in s.started && 0 <= id < |s.births| && s.births[id] == s.epoch
    ensures id !in s.refused
  {
    assert id in multiset(s.started) && id in multiset(IdsOf(s.queued));
    assert id in IdsOf(s.queued);
    CountBound(s.queued, id, s.births[id], s.epoch);
    assert multiset(IdsOf(s.queued))[id] >= multiset(s.started)[id] + multiset(s.refused)[id];
  }

  /** In some run a call of this kind is resumed by a return; named tells whether a message named return carried
      its number. */
  ghost predicate ReturnsIn(ss: seq<State>, ms: seq<Move>, i: nat, kind: Kind, named: bool) {
    && Run(ss, ms) && i < |ss[|ss| - 1].ends|
    && var s := ss[|ss| - 1];
       s.ends[i].end.Returned? && Of(s, s.ends[i].id, kind) && named == (Packet(s.ends[i].id, Return) in s.named)
  }

  ghost predicate RanFor(ss: seq<State>, i: nat) {
    ss != [] && i < |ss[|ss| - 1].ends| && ss[|ss| - 1].ends[i].id in ss[|ss| - 1].started
  }

  /** A return means that the method ran exactly when the call is not one of call_verb and nobody sends a message
      named return with its number. */
  lemma ReturnMeansRanIff(kind: Kind, named: bool)
    ensures (forall ss, ms, i :: ReturnsIn(ss, ms, i, kind, named) ==> RanFor(ss, i))
            <==> !kind.CallVerb? && !named
  {
    if !kind.CallVerb? && !named {
      forall ss, ms, i | ReturnsIn(ss, ms, i, kind, named) ensures RanFor(ss, i) {
        ReturnedRan(ss, ms, i);
      }
    } else {
      var ss, ms := ReturnWithoutRun(kind, named, Time(0, 0));
      assert ReturnsIn(ss, ms, 0, kind, named);
    }
  }

  /** A command that matches no verb, and a message somebody names return: the caller goes on, and nothing ran. */
  lemma ReturnWithoutRun(kind: Kind, named: bool, now: Time) returns (ss: seq<State>, ms: seq<Move>)
    requires Normal(now) && (named || kind.CallVerb?)
    ensures ReturnsIn(ss, ms, 0, kind, named) && ss[|ss| - 1].ends[0].id == 0 && ss[|ss| - 1].started == []
  {
    hide Looked, AddMsec;
    var s := Sent(Start(now, true), kind, true);
    ss, ms := Then([Start(now, true)], [], s, DoSend(kind, true));
    assert s.waits == [NewWait(0, now)] && s.calls == {0} && Of(s, 0, kind);
    if named {
      var t := s.(named := {Packet(0, Return)}, replies := {Packet(0, Return)});
      assert s.named + {Packet(0, Return)} == t.named && s.replies + {Packet(0, Return)} == t.replies;
      ss, ms := Then(ss, ms, t, DoNamed(Packet(0, Return)));
      ss, ms := Answered(ss, ms, t);
    } else {
      ss, ms := Then(ss, ms, Received(s, 0), DoDeliver(0));
      var t := NotMatched(Received(s, 0));
      ss, ms := Then(ss, ms, t, DoNoVerb(0));
      ss, ms := Answered(ss, ms, t);
    }
  }

  lemma NotMatched(s: State) returns (t: State)
    requires s.queue == [0] && s.refused == [] && s.unmatched == {} && s.replies == {} && Of(s, 0, CallVerb)
    ensures Step(s, t, DoNoVerb(0))
    ensures t == s.(queue := [], refused := [0], unmatched := {0}, replies := {Packet(0, Return)})
  {
    t := s.(queue := [], refused := [0], unmatched := {0}, replies := {Packet(0, Return)});
    assert Cut(s.queue, 0) == [] && s.refused + [0] == [0];
    assert s.unmatched + {0} == {0} && s.replies + {Packet(0, Return)} == t.replies;
  }

  /** The return arrives, and the waiting task is looked at. */
  lemma Answered(ss: seq<State>, ms: seq<Move>, s: State) returns (ss': seq<State>, ms': seq<Move>)
    requires Run(ss, ms) && s == ss[|ss| - 1] && Packet(0, Return) in s.replies && s.inbox == []
    requires s.waits == [NewWait(0, s.now)] && s.ends == []
    ensures Run(ss', ms')
    ensures ss'[|ss'| - 1] == s.(waits := [], ends := [Outcome(0, Returned, 0)])
  {
    var p := Packet(0, Return);
    var t := s.(inbox := [p]);
    assert s.inbox + [p] == [p];
    ss', ms' := Then(ss, ms, t, DoAnswer(p));
    assert ReplyFor(t.inbox, 0) == 0;
    assert Cut(t.waits, 0) == [] && Cut(t.inbox, 0) == [] && s.ends + [Outcome(0, Returned, 0)] == [Outcome(0, Returned, 0)];
    assert s.(waits := [], ends := [Outcome(0, Returned, 0)]) == Looked(t, 0, true);
    ss', ms' := Then(ss', ms', Looked(t, 0, true), DoLook(0, true));
  }

  /** A run one move longer. */
  lemma Then(ss: seq<State>, ms: seq<Move>, t: State, m: Move) returns (ss': seq<State>, ms': seq<Move>)
    requires Run(ss, ms) && Step(ss[|ss| - 1], t, m)
    ensures ss' == ss + [t] && ms' == ms + [m] && Run(ss', ms')
  {
    ss', ms' := ss + [t], ms + [m];
    forall k | 0 <= k < |ms'| ensures Step(ss'[k], ss'[k + 1], ms'[k]) {
      if k < |ms| { assert Step(ss[k], ss[k + 1], ms[k]); }
    }
  }

  /** No call is sent again more than four times. */
  lemma FourRetries(ss: seq<State>, ms: seq<Move>, i: nat)
    requires Run(ss, ms)
    ensures var s := ss[|ss| - 1];
            (i < |s.waits| ==> s.waits[i].resent <= 4) && (i < |s.ends| ==> s.ends[i].resent <= 4)
  {
    RunKeeps(ss, ms);
  }

  /** The bound is met, however often the server connects anew: after each connection a packet that comes late runs
      the method once more. */
  lemma {:induction false} OnceForEachConnect(now: Time, n: nat) returns (ss: seq<State>, ms: seq<Move>)
    requires Normal(now)
    ensures Run(ss, ms)
    ensures var s := ss[|ss| - 1];
            && s.births == [0] && multiset(s.started)[0] == n + 1 == s.epoch + 1 - s.births[0]
            && s.connected && s.last == 0 && s.queue == [] && 0 in s.calls && Of(s, 0, Plain)
  {
    hide Inv;
    var s;
    if n == 0 {
      s := Sent(Start(now, true), Plain, true);
      ss, ms := Then([Start(now, true)], [], s, DoSend(Plain, true));
    } else {
      ss, ms := OnceForEachConnect(now, n - 1);
      s := ss[|ss| - 1].(last := -1, epoch := ss[|ss| - 1].epoch + 1);
      ss, ms := Then(ss, ms, s, DoConnect);
    }
    ss, ms := Served(ss, ms, s);
  }

  /** The first call arrives, and its method begins to run. */
  lemma Served(ss: seq<State>, ms: seq<Move>, s: State) returns (ss': seq<State>, ms': seq<Move>)
    requires Run(ss, ms) && s == ss[|ss| - 1]
    requires s.connected && s.last == -1 && s.queue == [] && 0 in s.calls && Of(s, 0, Plain)
    ensures Run(ss', ms')
    ensures ss'[|ss'| - 1] == s.(last := 0, queued := s.queued + [Entry(s.epoch, 0)], started := s.started + [0],
                                 running := s.running + [0])
  {
    var u := Received(s, 0);
    assert u.queue == [0] && Cut(u.queue, 0) == [];
    ss', ms' := Then(ss, ms, u, DoDeliver(0));
    ss', ms' := Then(ss', ms', u.(queue := [], started := s.started + [0], running := s.running + [0]), DoStart(0));
  }
}

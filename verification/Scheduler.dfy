/** The message and event queues (src/src/message.c:69-281): what is true when process_queues leaves its loop. A
    method that is run is an arbitrary step; it may add messages and events, terminate waiting tasks, and
    change who is behind whose lock. */
module Scheduler {
  import opened Timers

  /** A message: its number, and whether it is a return, a raise or a halt. */
  datatype Msg = Msg(msgid: int, reply: bool)

  datatype Blocked =
    | OnMessage(msgid: int, remote: bool)
    | OnSystem(msgid: int)
    | OnLock
    | OnTimer
    | Dead

  datatype Event = Event(id: int, on: Blocked, timeoutAt: Time, retryAt: Time, interval: nat)

  /** What running a method does to the queues. */
  datatype Effect = Effect(msgs: seq<Msg>, events: seq<Event>, kills: set<int>, behind: set<int>)

  // ---------------------------------------------------------------- one event

  predicate Awaits(e: Event, m: Msg) {
    m.reply && ((e.on.OnMessage? || e.on.OnSystem?) && e.on.msgid == m.msgid)
  }

  /** find_reply: the first reply with the number, or |ms|. */
  function ReplyAt(ms: seq<Msg>, e: Event): (i: nat)
    ensures i <= |ms| && (i < |ms| ==> Awaits(e, ms[i])) && forall j :: 0 <= j < i ==> !Awaits(e, ms[j])
  {
    if ms == [] then 0 else if Awaits(e, ms[0]) then 0 else 1 + ReplyAt(ms[1..], e)
  }

  /** Nothing to be done about the event at this time: process_event would leave it, and send nothing. */
  ghost predicate Quiet(e: Event, ms: seq<Msg>, behind: set<int>, now: Time) {
    && (forall i :: 0 <= i < |ms| ==> !Awaits(e, ms[i]))
    && match e.on
       case OnMessage(_, remote) => remote ==> !Before(e.timeoutAt, now) && !Before(e.retryAt, now)
       case OnLock => e.id in behind && !Before(e.timeoutAt, now)
       case Dead => false
       case _ => !Before(e.timeoutAt, now)
  }

  /** Nothing to be done about any of the events. */
  ghost predicate QuietAll(es: seq<Event>, ms: seq<Msg>, behind: set<int>, now: Time) {
    forall i :: 0 <= i < |es| ==> Quiet(es[i], ms, behind, now)
  }

  lemma QuietMore(es: seq<Event>, ms: seq<Msg>, behind: set<int>, now: Time, i: nat)
    requires i < |es| && QuietAll(es[..i], ms, behind, now) && Quiet(es[i], ms, behind, now)
    ensures QuietAll(es[..i + 1], ms, behind, now)
  {
    forall j | 0 <= j < i + 1 ensures Quiet(es[j], ms, behind, now) {
      if j < i { assert es[..i][j] == es[j]; }
    }
  }

  predicate Timed(e: Event) { Normal(e.timeoutAt) && Nearly(e.retryAt) && e.interval > 0 }

  function Killed(e: Event, kills: set<int>): Event {
    if e.id in kills && !e.on.OnSystem? then e.(on := Dead, timeoutAt := e.timeoutAt.(sec := 0)) else e
  }

  function KilledAll(es: seq<Event>, kills: set<int>): (r: seq<Event>)
    ensures |r| == |es| && forall i :: 0 <= i < |r| ==> r[i] == Killed(es[i], kills)
  {
    seq(|es|, i requires 0 <= i < |es| => Killed(es[i], kills))
  }

  lemma StillTimed(es: seq<Event>, kills: set<int>, more: seq<Event>)
    requires AllTimed(es) && AllTimed(more)
    ensures AllTimed(KilledAll(es, kills) + more)
  {
  }

  /** The event after its message has been sent again. */
  function Resent(e: Event, now: Time): Event {
    e.(interval := 2 * e.interval, retryAt := AddMsec(now, 2 * e.interval))
  }

  /** How long until the event has to be looked at: for its timeout, or to send its message again. */
  function Slack(e: Event, now: Time): int {
    var end, again := Value(e.timeoutAt) - Value(now), Value(e.retryAt) - Value(now);
    if e.on.OnMessage? && e.on.remote && again < end then again else end
  }

  /** A wait of timeout is over no later than the event has to be looked at again. */
  predicate WakesFor(timeout: Time, e: Event, now: Time) { Value(timeout) <= Slack(e, now) }

  predicate WakesAll(timeout: Time, es: seq<Event>, now: Time) {
    forall i :: 0 <= i < |es| ==> WakesFor(timeout, es[i], now)
  }

  predicate Overdue(e: Event, now: Time) { Value(e.timeoutAt) < Value(now) }

  /** A wait of timeout is over in time for every event whose time has not passed already. */
  predicate WakesDue(timeout: Time, es: seq<Event>, now: Time) {
    forall i :: 0 <= i < |es| && !Overdue(es[i], now) ==> WakesFor(timeout, es[i], now)
  }

  /** No event waits for a local message beyond its time. */
  ghost predicate Punctual(es: seq<Event>, now: Time) {
    forall i :: 0 <= i < |es| ==> !(Overdue(es[i], now) && es[i].on.OnMessage? && !es[i].on.remote)
  }

  lemma StillPunctual(es: seq<Event>, kills: set<int>, more: seq<Event>, now: Time)
    requires Punctual(es, now) && Punctual(more, now)
    ensures Punctual(KilledAll(es, kills) + more, now)
  {
    var r := KilledAll(es, kills) + more;
    forall i | 0 <= i < |r| && r[i].on.OnMessage? ensures r[i] == if i < |es| then es[i] else more[i - |es|] { }
  }

  // ---------------------------------------------------------------- the timeout

  /** The timeout, no later than the next retransmission. */
  function Retry(e: Event, now: Time, timeout: Time): Time {
    if e.on.OnMessage? && e.on.remote then Min(Sub(e.retryAt, now), timeout) else timeout
  }

  /** The timeout after an event has been left. */
  function Wake(e: Event, now: Time, timeout: Time): Time { Min(Sub(e.timeoutAt, now), Retry(e, now, timeout)) }

  function WakeAll(es: seq<Event>, now: Time, timeout: Time): Time {
    if es == [] then timeout else Wake(es[|es| - 1], now, WakeAll(es[..|es| - 1], now, timeout))
  }

  /** Of a negative timeout only the seconds are set to zero. */
  function Clamped(t: Time): Time { if t.sec < 0 then t.(sec := 0) else t }

  lemma WakeIs(e: Event, now: Time, timeout: Time)
    requires Timed(e) && Normal(now) && Nearly(timeout)
    ensures var t := Wake(e, now, timeout); Nearly(t) && Value(t) <= Value(timeout) && WakesFor(t, e, now)
  {
    SubIs(e.timeoutAt, now);
    SubIs(e.retryAt, now);
    MinIs(Sub(e.retryAt, now), timeout);
    MinIs(Sub(e.timeoutAt, now), Retry(e, now, timeout));
  }

  lemma {:induction false} WakeAllIs(es: seq<Event>, now: Time, timeout: Time)
    requires AllTimed(es) && Normal(now) && Nearly(timeout)
    ensures var t := WakeAll(es, now, timeout);
            Nearly(t) && Value(t) <= Value(timeout) && WakesAll(t, es, now)
    decreases |es|
  {
    if es != [] {
      var n := |es| - 1;
      WakeAllIs(es[..n], now, timeout);
      WakeIs(es[n], now, WakeAll(es[..n], now, timeout));
      assert forall i :: 0 <= i < n ==> WakesFor(WakeAll(es[..n], now, timeout), es[..n][i], now);
    }
  }

  /** t is the timeout, or the time that one of the events has, and no longer than any of them. */
  ghost predicate Attained(t: Time, es: seq<Event>, now: Time, timeout: Time) {
    && Value(t) <= Value(timeout) && WakesAll(t, es, now)
    && (Value(t) == Value(timeout) || exists i :: 0 <= i < |es| && Value(t) == Slack(es[i], now))
  }

  /** The least time is one that there is. */
  lemma {:induction false} WakeAllAttained(es: seq<Event>, now: Time, timeout: Time)
    requires AllTimed(es) && Normal(now) && Nearly(timeout)
    ensures Attained(WakeAll(es, now, timeout), es, now, timeout)
    decreases |es|
  {
    hide Timed, Slack, Wake;
    if es != [] {
      var n := |es| - 1;
      var t := WakeAll(es[..n], now, timeout);
      WakeAllAttained(es[..n], now, timeout);
      WakeAllIs(es[..n], now, timeout);
      WakeAllIs(es, now, timeout);
      WakeIs(es[n], now, t);
      WakeAttains(es[n], now, t);
      if i :| 0 <= i < n && Value(t) == Slack(es[..n][i], now) { assert es[i] == es[..n][i]; }
    }
  }

  lemma LeastAttained(es: seq<Event>, now: Time, timeout: Time)
    requires AllWait(es, now) && Normal(now) && Nearly(timeout)
    ensures var t := WakeAll(es, now, timeout);
            Attained(t, es, now, timeout) && (timeout.sec >= 0 && Lag(es, now) == 0 ==> Clamped(t) == t)
  {
    WakeAllAttained(es, now, timeout);
    if timeout.sec >= 0 { WakeAllLag(es, now, timeout); }
  }

  lemma WakeAttains(e: Event, now: Time, timeout: Time)
    requires Timed(e) && Normal(now) && Nearly(timeout)
    ensures Value(Wake(e, now, timeout)) == Value(timeout) || Value(Wake(e, now, timeout)) == Slack(e, now)
  {
    SubIs(e.timeoutAt, now);
    SubIs(e.retryAt, now);
    BeforeIs(Sub(e.timeoutAt, now), Retry(e, now, timeout));
    BeforeIs(Retry(e, now, timeout), Sub(e.timeoutAt, now));
    BeforeIs(Sub(e.retryAt, now), timeout);
    BeforeIs(timeout, Sub(e.retryAt, now));
  }

  lemma {:induction false} WakeAllMore(es: seq<Event>, more: seq<Event>, now: Time, timeout: Time)
    ensures WakeAll(es + more, now, timeout) == WakeAll(more, now, WakeAll(es, now, timeout))
    decreases |more|
  {
    if more == [] {
      assert es + more == es;
    } else {
      var n := |more| - 1;
      assert (es + more)[..|es| + n] == es + more[..n];
      WakeAllMore(es, more[..n], now, timeout);
    }
  }

  lemma WakeAllNone(now: Time, timeout: Time)
    ensures WakeAll([], now, timeout) == timeout && AllWait([], now) && Punctual([], now)
  {
  }

  predicate EndsWith(s: seq<Event>, t: seq<Event>) { |t| <= |s| && s[|s| - |t|..] == t }

  // ---------------------------------------------------------------- deadlines that are slept past

  /** What holds of an event that was left: only a wait for a local message can be beyond its time. */
  predicate Waits(e: Event, now: Time) {
    && Timed(e)
    && (Overdue(e, now) ==> e.on.OnMessage? && !e.on.remote)
    && (e.on.OnMessage? && e.on.remote ==> !Before(e.retryAt, now))
  }

  predicate AllWait(es: seq<Event>, now: Time) { forall i :: 0 <= i < |es| ==> Waits(es[i], now) }

  lemma QuietWithout(es: seq<Event>, ms: seq<Msg>, behind: set<int>, now: Time)
    requires QuietAll(es, ms, behind, now)
    ensures QuietAll(es, [], behind, now) && forall m, e :: m in multiset(ms) && e in es ==> !Awaits(e, m)
  {
    forall i | 0 <= i < |es| ensures Quiet(es[i], [], behind, now) {
      assert Quiet(es[i], ms, behind, now);
    }
  }

  /** The earliest timeout that has passed, as a negative number of microseconds; 0 when there is none. */
  function Lag(es: seq<Event>, now: Time): (lag: int)
    ensures lag <= 0 && forall i :: 0 <= i < |es| ==> lag <= Value(es[i].timeoutAt) - Value(now)
    ensures lag < 0 ==> exists i :: 0 <= i < |es| && lag == Value(es[i].timeoutAt) - Value(now)
  {
    if es == [] then
      0
    else
      var n := |es| - 1;
      var before, last := Lag(es[..n], now), Value(es[n].timeoutAt) - Value(now);
      assert forall i :: 0 <= i < n ==> es[..n][i] == es[i];
      if last < before then last else before
  }

  /** Nothing is late, or the microseconds left of the lag are over in time for all that are not. */
  predicate InTime(lag: int, es: seq<Event>, now: Time) {
    lag == 0 || forall i :: 0 <= i < |es| && !Overdue(es[i], now) ==> lag % MILLION <= Slack(es[i], now)
  }

  lemma AllWaitMore(es: seq<Event>, more: seq<Event>, now: Time)
    requires AllWait(es, now) && AllWait(more, now)
    ensures AllWait(es + more, now) && (Punctual(es, now) && Punctual(more, now) ==> Punctual(es + more, now))
  {
  }

  lemma PunctualLag(es: seq<Event>, now: Time)
    requires AllWait(es, now)
    ensures Punctual(es, now) <==> Lag(es, now) == 0
  {
  }

  lemma WakeStep(e: Event, now: Time, timeout: Time)
    requires Waits(e, now) && Normal(now) && Nearly(timeout) && (timeout.sec < 0 ==> Normal(timeout))
    ensures var t := Wake(e, now, timeout);
            && Nearly(t) && (t.sec < 0 ==> Normal(t))
            && (t.sec < 0 <==> timeout.sec < 0 || Overdue(e, now))
            && (t.sec < 0 ==> Value(t) == Shorter(Value(e.timeoutAt) - Value(now), if timeout.sec < 0 then Value(timeout) else 0))
  {
    SubIs(e.timeoutAt, now);
    SubIs(e.retryAt, now);
  }

  function Shorter(a: int, b: int): int { if a < b then a else b }

  /** The least time is negative exactly when something is late, and then it is the lag. */
  lemma {:induction false} WakeAllLag(es: seq<Event>, now: Time, timeout: Time)
    requires AllWait(es, now) && Normal(now) && Nearly(timeout) && timeout.sec >= 0
    ensures var t := WakeAll(es, now, timeout);
            && Nearly(t) && (t.sec < 0 <==> Lag(es, now) < 0) && (t.sec < 0 ==> Normal(t) && Value(t) == Lag(es, now))
    decreases |es|
  {
    if es != [] {
      var n := |es| - 1;
      WakeAllLag(es[..n], now, timeout);
      WakeStep(es[n], now, WakeAll(es[..n], now, timeout));
    }
  }

  lemma RestIs(t: Time)
    requires Normal(t)
    ensures Value(t) % MILLION == t.usec
  {
  }

  /** The server wakes in time for every event that is not late already exactly when nothing was late, or the lag's
      microseconds are over in time. since are the events that were left, es those of them that are still there. */
  lemma WakesDueIff(since: seq<Event>, es: seq<Event>, now: Time, timeout: Time)
    requires AllWait(since, now) && Normal(now) && Nearly(timeout) && timeout.sec >= 0
    requires forall i :: 0 <= i < |es| ==> es[i] in since
    ensures WakesDue(Clamped(WakeAll(since, now, timeout)), es, now) <==> InTime(Lag(since, now), es, now)
  {
    hide WakeAll;
    var t := WakeAll(since, now, timeout);
    WakeAllLag(since, now, timeout);
    if t.sec >= 0 {
      WakeAllIs(since, now, timeout);
      forall i | 0 <= i < |es| ensures WakesFor(t, es[i], now) {
        var j :| 0 <= j < |since| && since[j] == es[i];
      }
    } else {
      RestIs(t);
    }
  }

  /** In queues with nothing to do that is: no wait for a local message is late, or by microseconds that are over in
      time for every event that is not. */
  lemma QuietWakes(es: seq<Event>, ms: seq<Msg>, behind: set<int>, now: Time, timeout: Time)
    requires AllTimed(es) && Normal(now) && Nearly(timeout) && timeout.sec >= 0 && QuietAll(es, ms, behind, now)
    ensures WakesDue(Clamped(WakeAll(es, now, timeout)), es, now) <==> InTime(Lag(es, now), es, now)
  {
    forall i | 0 <= i < |es| ensures Waits(es[i], now) {
      assert Quiet(es[i], ms, behind, now);
      BeforeIs(es[i].timeoutAt, now);
    }
    WakesDueIff(es, es, now, timeout);
  }

  /** With the microseconds set to zero as well it would always wake in time. */
  lemma ZeroWakes(es: seq<Event>, now: Time)
    requires AllWait(es, now) && Normal(now)
    ensures WakesDue(Time(0, 0), es, now)
  {
    forall i | 0 <= i < |es| && !Overdue(es[i], now) ensures WakesFor(Time(0, 0), es[i], now) {
      BeforeIs(es[i].retryAt, now);
    }
  }

  function Ids(es: seq<Event>): (r: seq<int>)
    ensures |r| == |es| && forall i :: 0 <= i < |es| ==> r[i] == es[i].id
  {
    seq(|es|, i requires 0 <= i < |es| => es[i].id)
  }

  lemma IdsMore(es: seq<Event>, kills: set<int>, more: seq<Event>)
    ensures Ids(KilledAll(es, kills) + more) == Ids(es) + Ids(more)
  {
  }

  lemma IdsWithout(es: seq<Event>, i: nat)
    requires i < |es|
    ensures multiset(Ids(es)) == multiset(Ids(es[..i] + es[i + 1..])) + multiset{es[i].id}
  {
    var ids := Ids(es);
    assert ids == ids[..i] + [es[i].id] + ids[i + 1..];
    assert Ids(es[..i] + es[i + 1..]) == ids[..i] + ids[i + 1..];
  }

  ghost predicate Scripted(script: nat -> Effect) { forall k :: AllTimed(script(k).events) }

  ghost predicate AllTimed(es: seq<Event>) { forall i :: 0 <= i < |es| ==> Timed(es[i]) }

  ghost predicate All(ms: multiset<Msg>, reply: bool) { forall m :: m in ms ==> m.reply == reply }

  // ---------------------------------------------------------------- the queues

  class Queues {
    const script: nat -> Effect
    const down: nat -> bool
    var events: seq<Event>
    var msgs: seq<Msg>
    var behind: set<int>
    var runs: nat
    var sends: nat
    ghost var arrived: multiset<Msg>
    ghost var dispatched: multiset<Msg>
    ghost var answered: multiset<Msg>
    ghost var swept: multiset<Msg>
    ghost var entered: multiset<int>  // the events, by their tasks
    ghost var finished: multiset<int>

    constructor (script: nat -> Effect, down: nat -> bool, events: seq<Event>, msgs: seq<Msg>, behind: set<int>)
      requires Scripted(script) && AllTimed(events)
      ensures Valid() && this.script == script && this.events == events && this.msgs == msgs && this.behind == behind
    {
      this.script, this.down := script, down;
      this.events, this.msgs, this.behind := events, msgs, behind;
      runs, sends := 0, 0;
      arrived, dispatched, answered, swept := multiset(msgs), multiset{}, multiset{}, multiset{};
      entered, finished := multiset(Ids(events)), multiset{};
    }

    ghost predicate Valid()
      reads this
    {
      Scripted(script) && AllTimed(events) && Accounted() && Enrolled()
    }

    /** Every event that was added is still queued or has been handled once. */
    ghost predicate Enrolled()
      reads this`events, this`entered, this`finished
    {
      entered == multiset(Ids(events)) + finished
    }

    /** Every message that arrived is still queued or has gone one way: non-replies are dispatched, replies
        resume a task or are swept away. */
    ghost predicate Accounted()
      reads this`arrived, this`msgs, this`dispatched, this`answered, this`swept
    {
      && arrived == multiset(msgs) + dispatched + answered + swept
      && All(dispatched, false) && All(answered, true) && All(swept, true)
    }

    /** No event waits for a local message beyond its time, nor will one that a method adds. */
    ghost predicate Prompt(now: Time)
      reads this`events
    {
      Punctual(events, now) && forall k :: Punctual(script(k).events, now)
    }

    /** There is nothing to do. */
    ghost predicate Still(now: Time)
      reads this
    {
      QuietAll(events, msgs, behind, now) && forall i :: 0 <= i < |msgs| ==> msgs[i].reply
    }

    /** A method runs. */
    method RunMethod(ghost now: Time)
      requires Valid()
      modifies this`runs, this`msgs, this`arrived, this`events, this`entered, this`behind
      ensures Valid() && old(msgs) <= msgs && |events| >= |old(events)| && (old(Prompt(now)) ==> Prompt(now))
      ensures runs == old(runs) + 1 && Ids(old(events)) <= Ids(events)
    {
      hide Accounted, Enrolled, Punctual, KilledAll, AllTimed;
      var f := script(runs);
      runs := runs + 1;
      AddMessages(f.msgs);
      ChangeEvents(f.events, f.kills, now);
      behind := f.behind;
    }

    /** msg_add. */
    method AddMessages(more: seq<Msg>)
      requires Valid()
      modifies this`msgs, this`arrived
      ensures Valid() && msgs == old(msgs) + more
    {
      arrived := arrived + multiset(more);
      msgs := msgs + more;
    }

    /** event_add, and cmkill on the waiting tasks. */
    method ChangeEvents(more: seq<Event>, kills: set<int>, ghost now: Time)
      requires Valid() && AllTimed(more)
      modifies this`events, this`entered
      ensures Valid() && events == KilledAll(old(events), kills) + more
      ensures Punctual(more, now) && old(Prompt(now)) ==> Prompt(now)
    {
      hide Accounted, KilledAll, Ids;
      StillTimed(events, kills, more);
      IdsMore(events, kills, more);
      entered := entered + multiset(Ids(more));
      if Punctual(events, now) && Punctual(more, now) { StillPunctual(events, kills, more, now); }
      events := KilledAll(events, kills) + more;
    }

    /** msg_rm, of a reply that has been taken. */
    method TakeReply(i: nat)
      requires Valid() && i < |msgs| && msgs[i].reply
      modifies this`msgs, this`answered
      ensures Valid() && msgs == old(msgs)[..i] + old(msgs)[i + 1..]
      ensures answered == old(answered) + multiset{old(msgs)[i]}
    {
      ghost var m := msgs[i];
      assert msgs == msgs[..i] + [m] + msgs[i + 1..];
      answered := answered + multiset{m};
      msgs := msgs[..i] + msgs[i + 1..];
    }

    /** process_event, of the event at i. */
    method ProcessEvent(i: nat, now: Time, timeout: Time) returns (handled: bool, next: Time)
      requires Valid() && i < |events| && Normal(now) && Nearly(timeout)
      modifies this`runs, this`sends, this`msgs, this`arrived, this`events, this`entered, this`behind, this`answered
      ensures Valid() && i < |events| && |events| >= |old(events)| && Nearly(next)
      ensures !handled ==> Left(i, now) && next == Retry(events[i], now, timeout)
      ensures handled ==> next == timeout
      ensures !handled ==> msgs == old(msgs) && behind == old(behind) && |events| == |old(events)|
      ensures !handled ==> (forall j :: 0 <= j < |events| && j != i ==> events[j] == old(events)[j])
      ensures old(Left(i, now)) ==> !handled && events == old(events)
      ensures !old(events[i].on.OnMessage?) ==> (handled <==> !old(Left(i, now)))
      ensures runs == old(runs) + if handled && !old(events[i].on.OnSystem?) then 1 else 0
      ensures old(Replied(i)) ==> answered == old(answered) + multiset{old(msgs[ReplyAt(msgs, events[i])])}
      ensures !old(Replied(i)) ==> answered == old(answered)
      ensures Ids(old(events)) <= Ids(events) && (old(Prompt(now)) ==> Prompt(now))
    {
      hide Accounted, Enrolled, KilledAll, Punctual, Timed;
      var e := events[i];
      next := timeout;
      match e.on {
        case OnMessage(_, _) =>
          handled, next := ProcessMessageEvent(i, now, timeout);
        case OnSystem(_) =>
          var r := ReplyAt(msgs, e);
          handled := r < |msgs| || Before(e.timeoutAt, now);
          if r < |msgs| { TakeReply(r); }
        case OnLock =>
          handled := e.id !in behind || Before(e.timeoutAt, now);
          if handled { RunMethod(now); }
        case OnTimer =>
          handled := Before(e.timeoutAt, now);
          if handled { RunMethod(now); }
        case Dead =>
          handled := true;
          RunMethod(now);
      }
    }

    /** The event at i has been left where it is, with nothing to be done about it. */
    ghost predicate Left(i: nat, now: Time)
      reads this
    {
      i < |events| && Quiet(events[i], msgs, behind, now)
    }

    /** process_message_event. A reply comes first; an event that waits for a local message is otherwise left; one
        that waits for a remote message runs out of time, or is sent again with the interval doubled, or is left. */
    method ProcessMessageEvent(i: nat, now: Time, timeout: Time) returns (handled: bool, next: Time)
      requires Valid() && i < |events| && events[i].on.OnMessage? && Normal(now) && Nearly(timeout)
      modifies this`runs, this`sends, this`msgs, this`arrived, this`events, this`entered, this`behind, this`answered
      ensures Valid() && i < |events| && |events| >= |old(events)| && Nearly(next)
      ensures !handled ==> Left(i, now) && next == Retry(events[i], now, timeout)
      ensures handled ==> next == timeout
      ensures handled <==> old(Replied(i)) || old(OutOfTime(i, now)) || (old(Resends(i, now)) && down(old(sends)))
      ensures old(Replied(i)) ==> answered == old(answered) + multiset{old(msgs[ReplyAt(msgs, events[i])])}
      ensures !old(Replied(i)) ==> answered == old(answered)
      ensures sends == old(sends) + if old(Resends(i, now)) then 1 else 0
      ensures runs == old(runs) + if handled then 1 else 0
      ensures !handled ==> msgs == old(msgs) && behind == old(behind)
      ensures !handled ==> events == if old(Resends(i, now)) then old(events)[i := Resent(old(events[i]), now)] else old(events)
      ensures !handled && old(Resends(i, now)) ==>
                && events[i].interval == 2 * old(events[i].interval)
                && Value(events[i].retryAt) == Value(now) + 1000 * events[i].interval
      ensures old(Left(i, now)) ==> !handled && events == old(events)
      ensures Ids(old(events)) <= Ids(events) && (old(Prompt(now)) ==> Prompt(now))
    {
      hide Accounted, Enrolled, Punctual, KilledAll;
      var e := events[i];
      next := timeout;
      var r := ReplyAt(msgs, e);
      if r < |msgs| {
        RunMethod(now);
        TakeReply(r);
        return true, next;
      }
      if !e.on.remote { return false, next; }
      if Before(e.timeoutAt, now) {
        RunMethod(now);
        return true, next;
      }
      if Before(e.retryAt, now) {
        var failed := Resend(i, now);
        if failed {
          RunMethod(now);
          return true, next;
        }
      }
      assert Timed(events[i]);
      SubIs(events[i].retryAt, now);
      MinIs(Sub(events[i].retryAt, now), timeout);
      handled, next := false, Min(Sub(events[i].retryAt, now), timeout);
    }

    /** A reply to the event at i is queued. */
    ghost predicate Replied(i: nat)
      requires i < |events|
      reads this
    {
      exists j :: 0 <= j < |msgs| && Awaits(events[i], msgs[j])
    }

    /** The event at i waits for a remote message, there is no reply, and its time has passed. */
    ghost predicate OutOfTime(i: nat, now: Time)
      requires i < |events|
      reads this
    {
      !Replied(i) && events[i].on.OnMessage? && events[i].on.remote && Before(events[i].timeoutAt, now)
    }

    /** The same, but it is only time to send the message again. */
    ghost predicate Resends(i: nat, now: Time)
      requires i < |events|
      reads this
    {
      && !Replied(i) && events[i].on.OnMessage? && events[i].on.remote
      && !Before(events[i].timeoutAt, now) && Before(events[i].retryAt, now)
    }

    /** The message goes out again, and the interval doubles. */
    method Resend(i: nat, now: Time) returns (failed: bool)
      requires Valid() && i < |events| && Normal(now) && events[i].on.OnMessage? && events[i].on.remote
      modifies this`events, this`sends
      ensures Valid() && events == old(events)[i := Resent(old(events[i]), now)] && !Before(events[i].retryAt, now)
      ensures Ids(events) == Ids(old(events)) && Value(events[i].retryAt) == Value(now) + 1000 * events[i].interval
      ensures failed == down(old(sends)) && sends == old(sends) + 1 && (old(Prompt(now)) ==> Prompt(now))
    {
      var e := events[i];
      var interval := e.interval * 2;
      AddMsecIs(now, interval);
      BeforeIs(AddMsec(now, interval), now);
      assert Ids(events[i := Resent(e, now)]) == Ids(events);
      events := events[i := Resent(e, now)];
      failed := down(sends);
      sends := sends + 1;
    }

    /** event_rm. */
    method RemoveEvent(i: nat, ghost now: Time)
      requires Valid() && i < |events|
      modifies this`events, this`finished
      ensures Valid() && events == old(events)[..i] + old(events)[i + 1..] && (old(Prompt(now)) ==> Prompt(now))
      ensures finished == old(finished) + multiset{old(events[i].id)}
    {
      IdsWithout(events, i);
      finished := finished + multiset{events[i].id};
      events := events[..i] + events[i + 1..];
    }

    /** One pass over the events. Those added while the last one is processed wait for the next pass. */
    method EventPass(now: Time, timeout: Time, fuel: nat)
      returns (handled: nat, next: Time, done: bool, ghost since: seq<Event>)
      requires Valid() && Normal(now) && Nearly(timeout)
      modifies this`runs, this`sends, this`msgs, this`arrived, this`events, this`entered, this`behind, this`answered, this`finished
      ensures Valid() && Nearly(next) && AllWait(since, now) && next == WakeAll(since, now, timeout)
      ensures done && handled == 0 ==>
                msgs == old(msgs) && behind == old(behind) && since == events && QuietAll(events, msgs, behind, now)
      ensures old(Prompt(now)) ==> Prompt(now) && Punctual(since, now)
      ensures |finished| == |old(finished)| + handled
      ensures old(Still(now)) && fuel >= |old(events)| ==> done && handled == 0 && events == old(events)
    {
      hide Accounted, Enrolled, Quiet, Waits, KilledAll, Timed;
      handled, next, done, since := 0, timeout, |events| == 0, [];
      var i, left := 0, fuel;
      while !done && left > 0
        invariant Valid() && Nearly(next) && i <= |events| && (!done ==> i < |events|)
        invariant AllWait(since, now) && next == WakeAll(since, now, timeout)
        invariant handled == 0 ==> msgs == old(msgs) && behind == old(behind) && since == events[..i]
        invariant handled == 0 ==> QuietAll(events[..i], msgs, behind, now)
        invariant handled == 0 && done ==> i == |events|
        invariant |finished| == |old(finished)| + handled
        invariant old(Prompt(now)) ==> Prompt(now) && Punctual(since, now)
        invariant old(Still(now)) ==> Still(now) && handled == 0 && events == old(events) && left == fuel - i
        decreases left
      {
        var last := i + 1 == |events|;
        var took;
        took, next := Turn(i, now, next);
        if took {
          handled := handled + 1;
        } else {
          assert (since + [events[i]])[..|since|] == since;
          since := since + [events[i]];
          if handled == 0 { QuietMore(events, msgs, behind, now, i); }
          i := i + 1;
        }
        done := last;
        left := left - 1;
      }
      assert i == |events| ==> events[..i] == events;
    }

    /** One event: it is handled and gone, or it is left and the timeout is no later than it allows. */
    method Turn(i: nat, now: Time, timeout: Time) returns (took: bool, next: Time)
      requires Valid() && i < |events| && Normal(now) && Nearly(timeout)
      modifies this`runs, this`sends, this`msgs, this`arrived, this`events, this`entered, this`behind, this`answered, this`finished
      ensures Valid() && Nearly(next) && |events| >= |old(events)| - 1 && (old(Prompt(now)) ==> Prompt(now))
      ensures took ==> next == timeout
      ensures !took ==> i < |events| && Left(i, now) && Waits(events[i], now) && next == Wake(events[i], now, timeout)
      ensures !took ==> msgs == old(msgs) && behind == old(behind) && |events| == |old(events)|
      ensures !took ==> events[..i] == old(events[..i]) && forall j :: i < j < |events| ==> events[j] == old(events)[j]
      ensures old(Left(i, now)) ==> !took && events == old(events)
      ensures finished == old(finished) + if took then multiset{old(events[i].id)} else multiset{}
      ensures runs == old(runs) + if took && !old(events[i].on.OnSystem?) then 1 else 0
    {
      took, next := ProcessEvent(i, now, timeout);
      if took {
        RemoveEvent(i, now);
      } else {
        next := Min(Sub(events[i].timeoutAt, now), next);
        WakeIs(events[i], now, timeout);
        BeforeIs(events[i].timeoutAt, now);
      }
    }

    /** The message at i is dispatched: a method runs, or an error goes back. */
    method Dispatch(i: nat, ghost now: Time)
      requires Valid() && i < |msgs| && !msgs[i].reply
      modifies this`runs, this`msgs, this`arrived, this`events, this`entered, this`behind, this`dispatched
      ensures Valid() && |msgs| >= |old(msgs)| - 1 && (old(Prompt(now)) ==> Prompt(now))
      ensures dispatched == old(dispatched) + multiset{old(msgs)[i]}
    {
      hide Enrolled, Awaits, Punctual, KilledAll, AllTimed;
      RunMethod(now);
      var m := msgs[i];
      assert msgs == msgs[..i] + [m] + msgs[i + 1..];
      dispatched := dispatched + multiset{m};
      msgs := msgs[..i] + msgs[i + 1..];
    }

    /** One pass over the messages. */
    method MessagePass(fuel: nat, ghost now: Time) returns (handled: nat, done: bool)
      requires Valid()
      modifies this`runs, this`msgs, this`arrived, this`events, this`entered, this`behind, this`dispatched
      ensures Valid() && (old(Prompt(now)) ==> Prompt(now)) && |dispatched| == |old(dispatched)| + handled
      ensures (forall i :: 0 <= i < |old(msgs)| ==> old(msgs)[i].reply) && fuel >= |old(msgs)| ==> done && handled == 0
      ensures done && handled == 0 ==>
                && msgs == old(msgs) && behind == old(behind) && events == old(events)
                && forall i :: 0 <= i < |msgs| ==> msgs[i].reply
    {
      handled, done := 0, |msgs| == 0;
      var i, left := 0, fuel;
      while !done && left > 0
        invariant Valid() && i <= |msgs| && (!done ==> i < |msgs|)
        invariant handled == 0 ==> msgs == old(msgs) && behind == old(behind) && events == old(events)
        invariant handled == 0 ==> forall j :: 0 <= j < i ==> msgs[j].reply
        invariant handled == 0 && done ==> i == |msgs|
        invariant |dispatched| == |old(dispatched)| + handled
        invariant old(Prompt(now)) ==> Prompt(now)
        invariant (forall j :: 0 <= j < |old(msgs)| ==> old(msgs)[j].reply) ==> handled == 0 && left == fuel - i
        decreases left
      {
        var last := i + 1 == |msgs|;
        if !msgs[i].reply {
          Dispatch(i, now);
          handled := handled + 1;
        } else {
          i := i + 1;
        }
        done := last;
        left := left - 1;
      }
    }

    /** The replies nobody took are thrown away. */
    method Sweep()
      requires Valid() && forall i :: 0 <= i < |msgs| ==> msgs[i].reply
      modifies this`msgs, this`swept
      ensures Valid() && msgs == [] && swept == old(swept) + multiset(old(msgs))
    {
      swept := swept + multiset(msgs);
      forall m | m in swept ensures m.reply {
        if m in multiset(msgs) { assert m in msgs; }
      }
      msgs := [];
    }

    /** process_queues. When the loop has come to an end - settled - no message is left, no event could be
        handled, and nothing that was swept away was awaited. The least time that any event allows is no later
        than each of them has to be looked at; what is returned is that, with negative seconds set to zero. since
        are the events that were left one after another, which end with those that are still there. */
    method ProcessQueues(now: Time, timeout: Time, fuel: nat)
      returns (settled: bool, next: Time, ghost least: Time, ghost since: seq<Event>)
      requires Valid() && Normal(now) && Nearly(timeout)
      modifies this
      ensures Valid()
      ensures settled ==> msgs == [] && QuietAll(events, msgs, behind, now) && EndsWith(since, events)
      ensures settled ==> forall m, e :: m in swept - old(swept) && e in events ==> !Awaits(e, m)
      ensures least == WakeAll(since, now, timeout) && Attained(least, since, now, timeout)
      ensures settled && timeout.sec >= 0 && Lag(since, now) == 0 ==> next == least
      ensures settled ==> next == Clamped(least) && WakesAll(least, events, now)
      ensures settled && timeout.sec >= 0 ==> (WakesDue(next, events, now) <==> InTime(Lag(since, now), events, now))
      ensures old(Prompt(now)) ==> Lag(since, now) == 0
      ensures old(Still(now)) && fuel > 0 && fuel >= |old(events)| && fuel >= |old(msgs)| ==>
                settled && events == since == old(events)
    {
      hide Accounted, Enrolled, WakeAll, QuietAll, AllWait, Punctual, WakesAll, WakesDue, InTime, Lag, Attained;
      settled, next, since := false, timeout, [];
      WakeAllNone(now, timeout);
      var left := fuel;
      while !settled && left > 0
        invariant Valid() && Nearly(next) && swept == old(swept)
        invariant AllWait(since, now) && next == WakeAll(since, now, timeout)
        invariant settled ==> forall i :: 0 <= i < |msgs| ==> msgs[i].reply
        invariant settled ==> QuietAll(events, msgs, behind, now) && WakesAll(next, events, now) && EndsWith(since, events)
        invariant old(Prompt(now)) ==> Prompt(now) && Punctual(since, now)
        invariant left == fuel ==> !settled && since == [] && events == old(events) && (old(Still(now)) ==> Still(now))
                                   && |msgs| == |old(msgs)|
        invariant left < fuel && old(Still(now)) && fuel >= |old(events)| && fuel >= |old(msgs)| ==>
                    settled && events == since == old(events)
        decreases left
      {
        ghost var more;
        settled, next, more := Pass(now, next, left);
        WakeAllMore(since, more, now, timeout);
        AllWaitMore(since, more, now);
        since := since + more;
        left := left - 1;
      }
      least := next;
      PunctualLag(since, now);
      LeastAttained(since, now, timeout);
      if settled {
        QuietWithout(events, msgs, behind, now);
        Sweep();
        if timeout.sec >= 0 { WakesDueIff(since, events, now, timeout); }
        if next.sec < 0 { next := next.(sec := 0); }
      }
    }

    /** Both loops once; settled when there was nothing to do. */
    method Pass(now: Time, timeout: Time, fuel: nat) returns (settled: bool, next: Time, ghost since: seq<Event>)
      requires Valid() && Normal(now) && Nearly(timeout)
      modifies this
      ensures Valid() && Nearly(next) && swept == old(swept)
      ensures AllWait(since, now) && next == WakeAll(since, now, timeout)
      ensures settled ==> forall i :: 0 <= i < |msgs| ==> msgs[i].reply
      ensures settled ==> QuietAll(events, msgs, behind, now) && WakesAll(next, events, now) && since == events
      ensures old(Prompt(now)) ==> Prompt(now) && Punctual(since, now)
      ensures old(Still(now)) && fuel >= |old(events)| && fuel >= |old(msgs)| ==> settled && events == old(events)
    {
      hide Accounted, Enrolled, WakeAll, QuietAll, AllWait, Punctual, WakesAll;
      var handled, done;
      handled, next, done, since := EventPass(now, timeout, fuel);
      var dispatched, all := MessagePass(fuel, now);
      settled := done && all && handled == 0 && dispatched == 0;
      if settled { WakeAllIs(events, now, timeout); }
    }
  }

  /** The server sleeps past a deadline: one task is 0.3 s late for a local reply, another is due in 0.2 s, and the
      timeout comes to 0.7 s. */
  method Oversleeps() returns (now: Time, next: Time, late: Event, due: Event)
    ensures Overdue(late, now) && late.on == OnMessage(5, false)
    ensures !Overdue(due, now) && due.on == OnTimer && Value(due.timeoutAt) - Value(now) < Value(next)
  {
    hide Attained, InTime, EndsWith, WakesDue;
    now := Time(10, 500000);
    late, due := Event(1, OnMessage(5, false), Time(10, 200000), now, 1500), Event(2, OnTimer, Time(10, 700000), now, 1500);
    var q := new Queues(_ => Effect([], [], {}, {}), _ => false, [late, due], [], {});
    assert q.events[0] == late && q.events[1] == due;
    var settled;
    ghost var least, since;
    settled, next, least, since := q.ProcessQueues(now, Time(60, 0), 2);
    assert [late, due][..1] == [late] && [late][..0] == [];
    assert WakeAll([late], now, Time(60, 0)) == Time(-1, 700000);
    assert least == Time(-1, 700000);
  }
}

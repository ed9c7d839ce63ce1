/** The calling server of Protocol looks at a wait as the queues of Scheduler look at its event
    (src/src/message.c:160-201). */
module Agreement {
  import opened Timers
  import Protocol
  import Scheduler

  /** The event of a wait. */
  function EventOf(w: Protocol.Wait): Scheduler.Event {
    Scheduler.Event(w.id, Scheduler.OnMessage(w.id, true), w.timeoutAt, w.retryAt, w.interval)
  }

  /** The queue of messages that an inbox of replies is. */
  function Queue(inbox: seq<Protocol.Packet>): (ms: seq<Scheduler.Msg>)
    ensures |ms| == |inbox| && forall i :: 0 <= i < |ms| ==> ms[i] == Scheduler.Msg(inbox[i].id, true)
  {
    seq(|inbox|, i requires 0 <= i < |inbox| => Scheduler.Msg(inbox[i].id, true))
  }

  lemma {:induction false} SameReply(inbox: seq<Protocol.Packet>, w: Protocol.Wait)
    ensures Scheduler.ReplyAt(Queue(inbox), EventOf(w)) == Protocol.ReplyFor(inbox, w.id)
  {
    if inbox != [] && inbox[0].id != w.id {
      assert Queue(inbox)[1..] == Queue(inbox[1..]);
      SameReply(inbox[1..], w);
    }
  }

  /** The wait is over exactly when the event would be handled, with the first reply, the timeout, or a server that is
      down; it is sent again exactly when the event would be, and then the two have the same times. */
  lemma LookedAs(s: Protocol.State, i: nat, up: bool)
    requires i < |s.waits|
    ensures var w, t := s.waits[i], Protocol.Looked(s, i, up);
            var e, r := EventOf(w), Scheduler.ReplyAt(Queue(s.inbox), EventOf(w));
            var again := r == |s.inbox| && !Before(e.timeoutAt, s.now) && Before(e.retryAt, s.now);
            && (|t.waits| < |s.waits| <==> r < |s.inbox| || Before(e.timeoutAt, s.now) || (again && !up))
            && (|t.waits| == |s.waits| ==> EventOf(t.waits[i]) == if again then Scheduler.Resent(e, s.now) else e)
            && t.calls == s.calls + (if again && up then {w.id} else {})
            && (|t.waits| < |s.waits| ==>
                  && t.ends[..|s.ends|] == s.ends && |t.ends| == |s.ends| + 1
                  && t.ends[|s.ends|].id == w.id
                  && t.ends[|s.ends|].end == (if r < |s.inbox| then (match s.inbox[r].reply case Return => Protocol.Returned
                                                                     case Raise => Protocol.RaisedBack
                                                                     case Halt => Protocol.Halted)
                                              else if again then Protocol.SendFailed else Protocol.TimedOut))
  {
    SameReply(s.inbox, s.waits[i]);
  }
}

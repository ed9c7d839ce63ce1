/** What arrives from other servers (src/src/serverio.c:125-203, src/src/message.c:483-507,
    src/src/servers.c:393-407): connections, the filter against duplicates, and the queue. */
module Peers {
  import opened Wrappers
  import opened Values
  import opened Wire
  import opened WireProof
  import Operators
  import Protocol
  import WireIO

  /** What a server says about its connection. */
  datatype Meta = Connect | ConnectOk | Disconnect

  /** ISREPLY. */
  predicate IsReply(message: string) {
    SameText(message, "return") || SameText(message, "raise") || SameText(message, "halt")
  }

  /** What the name of a message means to the server that receives it. */
  function KindOf(message: string): (k: Protocol.Kind)
    ensures k.ReplyName? <==> IsReply(message)
  {
    if IsReply(message) then Protocol.ReplyName
    else if SameText(message, "call_verb") then Protocol.CallVerb else Protocol.Plain
  }

  /** The name of a message counts whatever its case: return, raise and halt are replies, call_verb is a command. */
  lemma KindIs(message: string)
    ensures var name := Operators.FoldedText(message);
            KindOf(message) == if name in {"return", "raise", "halt"} then Protocol.ReplyName
                               else if name == "call_verb" then Protocol.CallVerb else Protocol.Plain
  {
    LowerCase();
    Operators.FoldedTextIs(message, "return");
    Operators.FoldedTextIs(message, "raise");
    Operators.FoldedTextIs(message, "halt");
    Operators.FoldedTextIs(message, "call_verb");
  }

  lemma LowerCase()
    ensures Operators.FoldedText("return") == "return" && Operators.FoldedText("raise") == "raise"
    ensures Operators.FoldedText("halt") == "halt" && Operators.FoldedText("call_verb") == "call_verb"
  {
  }

  /** Whether the message is thrown away: a call from a server that is not known, or one that is not newer than
      the last one from its server. */
  predicate Dropped(last: map<int, int>, m: Message) {
    !IsReply(m.message) && (m.from.server !in last || Protocol.Discards(last[m.from.server], m.msgid))
  }

  /** The queue and the last numbers after a text has come in. */
  function Taken(servers: seq<Server>, last: map<int, int>, queue: seq<Message>, text: string): (map<int, int>, seq<Message>) {
    match Parse(servers, text)
    case None => (last, queue)
    case Some(m) =>
      if Dropped(last, m) then (last, queue)
      else (if IsReply(m.message) then last else last[m.from.server := m.msgid], queue + [m])
  }

  class Node {
    const servers: seq<Server>
    var connected: set<int>
    var last: map<int, int>
    var queue: seq<Message>

    constructor (servers: seq<Server>)
      ensures this.servers == servers && connected == {} && queue == []
      ensures last == map i | i in Numbers(servers) :: -1
    {
      this.servers, connected, queue := servers, {}, [];
      last := map i | i in Numbers(servers) :: -1;
    }

    static function Numbers(servers: seq<Server>): set<int> {
      set i | 0 <= i < |servers| :: servers[i].id
    }

    /** serv_discardmsg. */
    method Discard(server: int, msgid: int) returns (discard: bool)
      modifies this`last
      ensures discard == (server !in old(last) || Protocol.Discards(old(last)[server], msgid))
      ensures last == if discard then old(last) else old(last)[server := msgid]
    {
      if server !in last { return true; }
      if msgid > last[server] {
        last := last[server := msgid];
        return false;
      }
      return true;
    }

    /** receive_message. */
    method ReceiveMessage(text: string) returns (bad: bool)
      modifies this`last, this`queue
      ensures (last, queue) == Taken(servers, old(last), old(queue), text) && bad == Parse(servers, text).None?
    {
      var reader := new WireIO.Reader(servers, text);
      var r := reader.ParseMessage();
      match r {
        case None => return true;
        case Some(m) =>
          if !IsReply(m.message) {
            var discard := Discard(m.from.server, m.msgid);
            if discard { return false; }
          }
          queue := queue + [m];
          return false;
      }
    }

    /** meta_command, from a server in the table: a new connection starts the numbers afresh. */
    method MetaCommand(server: int, cmd: Meta)
      modifies this`connected, this`last
      ensures connected == if cmd.Disconnect? then old(connected) - {server} else old(connected) + {server}
      ensures last == if cmd.Disconnect? then old(last) else old(last)[server := -1]
    {
      match cmd {
        case Disconnect => connected := connected - {server};
        case _ =>
          connected := connected + {server};
          last := last[server := -1];
      }
    }

    /** server_command: what comes from servers that are not connected is ignored. */
    method ServerCommand(server: Option<int>, text: string)
      modifies this`last, this`queue
      ensures (last, queue) == if server.Some? && server.value in connected then Taken(servers, old(last), old(queue), text)
                               else (old(last), old(queue))
    {
      if server.Some? && server.value in connected {
        var bad := ReceiveMessage(text);
      }
    }
  }

  // ---------------------------------------------------------------- the filter on packets

  lemma TakenGrows(servers: seq<Server>, last: map<int, int>, queue: seq<Message>, text: string, server: int)
    requires server in last
    ensures var (l, q) := Taken(servers, last, queue, text); server in l && l[server] >= last[server] && queue <= q
  {
  }

  function TakenAll(servers: seq<Server>, last: map<int, int>, queue: seq<Message>, texts: seq<string>): (map<int, int>, seq<Message>) {
    if texts == [] then (last, queue)
    else
      var (l, q) := TakenAll(servers, last, queue, texts[..|texts| - 1]);
      Taken(servers, l, q, texts[|texts| - 1])
  }

  lemma {:induction false} TakenAllGrows(servers: seq<Server>, last: map<int, int>, queue: seq<Message>, texts: seq<string>, server: int)
    requires server in last
    ensures var (l, q) := TakenAll(servers, last, queue, texts); server in l && l[server] >= last[server] && queue <= q
    decreases |texts|
  {
    if texts != [] {
      TakenAllGrows(servers, last, queue, texts[..|texts| - 1], server);
      var (l, q) := TakenAll(servers, last, queue, texts[..|texts| - 1]);
      TakenGrows(servers, l, q, texts[|texts| - 1], server);
    }
  }

  /** The packet of a call, received and, after whatever else has come in on the connection, received again: it
      is queued as it was sent if it is newer than what came before, and the second time it is thrown away. */
  lemma PacketOnce(here: seq<Server>, there: seq<Server>, last: map<int, int>, queue: seq<Message>, m: Message,
      others: seq<string>)
    requires Named(here) && SendableMessage(here, there, m) && !KindOf(m.message).ReplyName?
    requires Renumbered(here, there, m.from.server) in last
    ensures var text, from := Packet(here, m), Renumbered(here, there, m.from.server);
            var (l1, q1) := Taken(there, last, queue, text);
            var (l2, q2) := TakenAll(there, l1, q1, others);
            && q1 == (if m.msgid > last[from] then queue + [Received(here, there, m)] else queue)
            && Taken(there, l2, q2, text) == (l2, q2)
  {
    PacketBack(here, there, m);
    var (l1, q1) := Taken(there, last, queue, Packet(here, m));
    TakenAllGrows(there, l1, q1, others, Renumbered(here, there, m.from.server));
  }

  /** A reply is queued every time it comes. */
  lemma ReplyAlways(here: seq<Server>, there: seq<Server>, last: map<int, int>, queue: seq<Message>, m: Message)
    requires Named(here) && SendableMessage(here, there, m) && KindOf(m.message).ReplyName?
    ensures Taken(there, last, queue, Packet(here, m)) == (last, queue + [Received(here, there, m)])
  {
    PacketBack(here, there, m);
  }
}

/** `websocket_events` as it behaves while nothing else runs; the session states are those of
    `EventLoop`. */
module WebSocketSession {
  import opened EventService
  import EventLoop

  /** What the socket does next: a text arrives, whose reply may fail, or receiving raises. */
  datatype Incoming = Text(data: string, replyFails: bool) | Disconnected | Raised

  predicate IsPing(i: Incoming) {
    i.Text? && i.data == "ping"
  }

  predicate EndsSession(i: Incoming) {
    !i.Text? || (IsPing(i) && i.replyFails)
  }

  /** How much is handled before the first thing that ends the session: something other than a
      text, or a ping whose reply fails. */
  function Handled(incoming: seq<Incoming>): (n: nat)
    ensures n <= |incoming|
    ensures n < |incoming| ==> incoming[n] in {Disconnected, Raised, Text("ping", true)}
    ensures forall k :: 0 <= k < n ==> incoming[k].Text? && incoming[k] != Text("ping", true)
  {
    if incoming == [] || EndsSession(incoming[0]) then 0 else
      var n := Handled(incoming[1..]);
      assert incoming == [incoming[0]] + incoming[1..];
      n + 1
  }

  /** A session adds its connection once it is accepted, answers every ping until something ends
      it, and has taken the connection out again when it returns. */
  method Serve(events: EventService, connection: nat, accepted: bool, greeted: bool, incoming: seq<Incoming>)
    returns (pongs: nat, end: EventLoop.Session)
    modifies events`activeConnections
    ensures end == if !accepted then EventLoop.Refused
                   else if !greeted || Handled(incoming) < |incoming| then EventLoop.Returned
                   else EventLoop.Streaming
    ensures events.activeConnections
         == match end
            case Refused => old(events.activeConnections)
            case Streaming => old(events.activeConnections) + {connection}
            case _ => old(events.activeConnections) - {connection}
    ensures pongs == if accepted && greeted then multiset(incoming[..Handled(incoming)])[Text("ping", false)] else 0
  {
    pongs := 0;
    if !accepted {
      return pongs, EventLoop.Refused;
    }
    events.Connect(connection);
    if !greeted {
      events.Disconnect(connection);
      return pongs, EventLoop.Returned;
    }
    var i := 0;
    while i < |incoming|
      invariant 0 <= i <= |incoming|
      invariant forall k :: 0 <= k < i ==> !EndsSession(incoming[k])
      invariant pongs == multiset(incoming[..i])[Text("ping", false)]
      invariant events.activeConnections == old(events.activeConnections) + {connection}
    {
      if EndsSession(incoming[i]) {
        events.Disconnect(connection);
        return pongs, EventLoop.Returned;
      }
      assert incoming[..i + 1] == incoming[..i] + [incoming[i]];
      if IsPing(incoming[i]) {
        pongs := pongs + 1;
      }
      i := i + 1;
    }
    end := EventLoop.Streaming;
  }
}

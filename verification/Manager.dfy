/** The WebSocket connection table and the typing throttle (app/ws/manager.py). */
module Manager {
  import opened Prelude
  import opened Throttle

  /** A WebSocket, by its identity. */
  type Socket = nat

  type Table = map<string, set<Socket>>

  /** The open sockets of a user. */
  function SocketsOf(connections: Table, sub: string): set<Socket> {
    if sub in connections then connections[sub] else {}
  }

  /** No user is listed without a socket, and only open sockets have a session on file. */
  ghost predicate Tidy(connections: Table, sessionIds: map<Socket, string>) {
    && (forall u | u in connections :: connections[u] != {})
    && (forall ws | ws in sessionIds :: exists u :: ws in SocketsOf(connections, u))
  }

  class ConnectionManager {
    var connections: Table
    var sessionIds: map<Socket, string>
    var typingSlots: map<(string, string), real>
    /** Every slot ever taken, never swept. */
    ghost var everTaken: map<(string, string), real>
    ghost var clock: real
    const minInterval: real

    ghost predicate Valid()
      reads this
    {
      Forgets(typingSlots, everTaken, clock, minInterval) && Tidy(connections, sessionIds)
    }

    constructor (minInterval: real, now: real)
      ensures Valid() && everTaken == map[] && clock == now && this.minInterval == minInterval
      ensures connections == map[] && sessionIds == map[]
    {
      typingSlots, everTaken := map[], map[];
      connections, sessionIds := map[], map[];
      clock := now;
      this.minInterval := minInterval;
    }

    /** Refused exactly when the latest allowed event of this sender and target is too recent. */
    method TypingAllowed(sender: string, target: string, now: real) returns (ok: bool)
      requires Valid() && clock <= now
      modifies this`typingSlots, this`everTaken, this`clock
      ensures Valid() && clock == now
      ensures ok <==>
                ((sender, target) in old(everTaken) ==> now - old(everTaken)[(sender, target)] >= minInterval)
      ensures everTaken == if ok then old(everTaken)[(sender, target) := now] else old(everTaken)
    {
      var key := (sender, target);
      NextKeepsForgets(typingSlots, everTaken, clock, Call(key, now), minInterval);
      clock := now;
      if key in typingSlots && now - typingSlots[key] < minInterval {
        return false;
      }
      everTaken := NextUnswept(everTaken, key, now, minInterval);
      typingSlots := typingSlots[key := now];
      if |typingSlots| > SWEEP_ABOVE {
        typingSlots := Sweep(typingSlots, now, minInterval);
      }
      return true;
    }

    /** A user is online exactly if listed, because nobody is listed without a socket. */
    method Has(sub: string) returns (online: bool)
      requires Valid()
      ensures online <==> SocketsOf(connections, sub) != {}
      ensures online <==> sub in connections
    {
      return SocketsOf(connections, sub) != {};
    }

    method Connect(sub: string, ws: Socket, sessionId: Option<string>)
      requires Valid()
      modifies this`connections, this`sessionIds
      ensures Valid()
      ensures forall u :: SocketsOf(connections, u) == SocketsOf(old(connections), u) + (if u == sub then {ws} else {})
      ensures sessionIds == if sessionId.Some? then old(sessionIds)[ws := sessionId.value] else old(sessionIds)
    {
      connections := connections[sub := SocketsOf(connections, sub) + {ws}];
      if sessionId.Some? {
        sessionIds := sessionIds[ws := sessionId.value];
      }
      assert ws in SocketsOf(connections, sub);
      assert forall u, w | w in SocketsOf(old(connections), u) :: w in SocketsOf(connections, u);
    }

    method Disconnect(sub: string, ws: Socket)
      requires Valid()
      modifies this`connections, this`sessionIds
      ensures Valid()
      ensures forall u :: SocketsOf(connections, u) == SocketsOf(old(connections), u) - (if u == sub then {ws} else {})
      ensures sessionIds == if sub in old(connections) then old(sessionIds) - {ws} else old(sessionIds)
    {
      if sub !in connections {
        return;
      }
      ghost var before := connections;
      var left := connections[sub] - {ws};
      connections := connections[sub := left];
      sessionIds := sessionIds - {ws};
      if left == {} {
        connections := connections - {sub};
      }
      assert forall u, w | w in SocketsOf(before, u) && w != ws :: w in SocketsOf(connections, u);
    }

    /** Closes every socket of the user, each once, and leaves everybody else's open. */
    method DisconnectSub(sub: string) returns (closed: seq<Socket>)
      requires Valid()
      modifies this`connections, this`sessionIds
      ensures Valid() && sub !in connections
      ensures forall u :: SocketsOf(connections, u) == if u == sub then {} else SocketsOf(old(connections), u)
      ensures Elements(closed) == SocketsOf(old(connections), sub) && |closed| == |Elements(closed)|
      ensures sessionIds == old(sessionIds) - SocketsOf(old(connections), sub)
    {
      ghost var before := connections;
      var sockets := SocketsOf(connections, sub);
      connections := connections - {sub};
      closed := CloseAll(sockets);
      assert forall u, w | u != sub && w in SocketsOf(before, u) :: w in SocketsOf(connections, u);
    }

    /** Forgets the sessions of some sockets and closes them one by one. */
    method CloseAll(sockets: set<Socket>) returns (closed: seq<Socket>)
      modifies this`sessionIds
      ensures Elements(closed) == sockets && |closed| == |sockets|
      ensures sessionIds == old(sessionIds) - sockets
    {
      closed := [];
      var todo := sockets;
      while todo != {}
        invariant todo <= sockets && Elements(closed) == sockets - todo && |closed| == |sockets - todo|
        invariant sessionIds == old(sessionIds) - (sockets - todo)
        decreases todo
      {
        var ws :| ws in todo;
        assert Elements(closed + [ws]) == Elements(closed) + {ws};
        assert sockets - (todo - {ws}) == (sockets - todo) + {ws};
        todo := todo - {ws};
        sessionIds := sessionIds - {ws};
        closed := closed + [ws];
      }
      assert sockets - todo == sockets;
    }

    /** Closes exactly those sockets of the user that belong to the session. */
    method DisconnectSession(sub: string, sessionId: string) returns (closed: seq<Socket>)
      requires Valid()
      modifies this`connections, this`sessionIds
      ensures Valid()
      ensures Elements(closed) == OfSession(SocketsOf(old(connections), sub), old(sessionIds), sessionId)
      ensures |closed| == |Elements(closed)|
      ensures forall u :: SocketsOf(connections, u)
                == SocketsOf(old(connections), u) - (if u == sub then Elements(closed) else {})
      ensures sessionIds == old(sessionIds) - Elements(closed)
    {
      if sub !in connections {
        return [];
      }
      ghost var before := connections;
      var targets := OfSession(connections[sub], sessionIds, sessionId);
      var left := connections[sub] - targets;
      connections := connections[sub := left];
      closed := CloseAll(targets);
      if left == {} {
        connections := connections - {sub};
      }
      assert forall u, w | w in SocketsOf(before, u) && w !in targets :: w in SocketsOf(connections, u);
    }
  }

  function OfSession(sockets: set<Socket>, sessionIds: map<Socket, string>, sessionId: string): set<Socket> {
    set ws | ws in sockets && ws in sessionIds && sessionIds[ws] == sessionId
  }
}

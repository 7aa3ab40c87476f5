/** The single-use cache for logout tokens and the back-channel logout that relies on it
    (app/sso/replay.py, app/sso/routes.py, app/oidc/tokens.py). */
module Replay {
  import opened Prelude
  import opened Manager

  /** The reference: deadlines that are never pruned. */
  predicate Seen(deadlines: map<string, real>, jti: string, now: real) {
    jti in deadlines && now < deadlines[jti]
  }

  ghost predicate PrunedFrom(seen: map<string, real>, added: map<string, real>, clock: real) {
    && (forall j | j in seen :: j in added && seen[j] == added[j])
    && (forall j | j in added && j !in seen :: added[j] <= clock)
  }

  class MemoryReplayCache {
    const ttl: int
    var seen: map<string, real>
    /** The latest deadline ever set for each jti. */
    ghost var added: map<string, real>
    ghost var clock: real

    ghost predicate Valid()
      reads this
    {
      PrunedFrom(seen, added, clock)
    }

    constructor (ttl: int, now: real)
      ensures Valid() && added == map[] && clock == now && this.ttl == ttl
    {
      this.ttl := ttl;
      seen, added := map[], map[];
      clock := now;
    }

    /** True means a replay. `pruneNow` and `addNow` are the two clock readings of one call. */
    method CheckAndAdd(jti: string, pruneNow: real, addNow: real) returns (replay: bool)
      requires Valid() && clock <= pruneNow <= addNow
      modifies this
      ensures Valid() && clock == addNow
      ensures replay <==> Seen(old(added), jti, pruneNow)
      ensures added == if replay then old(added) else old(added)[jti := addNow + ttl as real]
    {
      Prune(pruneNow);
      clock := addNow;
      if jti in seen {
        return true;
      }
      seen := seen[jti := addNow + ttl as real];
      added := added[jti := addNow + ttl as real];
      return false;
    }

    /** Forgets exactly the entries whose deadline has come. */
    method Prune(now: real)
      requires Valid() && clock <= now
      modifies this`seen, this`clock
      ensures Valid() && clock == now
      ensures forall j :: j in seen <==> j in old(seen) && old(seen)[j] > now
      ensures forall j | j in seen :: seen[j] == old(seen)[j]
    {
      clock := now;
      var todo := seen.Keys;
      while todo != {}
        invariant clock == now && todo <= seen.Keys
        invariant forall j :: j in seen <==> j in todo || (j in old(seen) && old(seen)[j] > now)
        invariant forall j | j in seen :: j in old(seen) && seen[j] == old(seen)[j]
        invariant PrunedFrom(seen, added, now)
        decreases todo
      {
        var j :| j in todo;
        todo := todo - {j};
        if seen[j] <= now {
          seen := seen - {j};
        }
      }
    }
  }

  /** A logout token that decodes: signed, for this client, and with an integer `iat`. */
  datatype Token = Token(iat: int, hasLogoutEvent: bool, jti: Option<string>, sub: Option<string>, sid: Option<string>)

  datatype Session = Session(sub: string, sid: Option<string>)

  datatype State = State(deadlines: map<string, real>, sessions: map<string, Session>)

  datatype Outcome = Rejected | Ignored | LoggedOut

  /** One delivery: the token and the wall and monotonic clocks when it is handled. */
  datatype Delivery = Delivery(token: Token, wall: real, mono: real)

  /** `now - iat <= max_skew` on whole seconds. */
  predicate Fresh(token: Token, maxSkew: int, wall: real) {
    wall.Floor - token.iat <= maxSkew
  }

  predicate Accepts(token: Token, maxSkew: int, wall: real) {
    Fresh(token, maxSkew, wall) && token.hasLogoutEvent && token.jti.Some? && token.sub.Some?
  }

  /** The rows a logout deletes: those of the session id, or of the whole user when none matches. */
  function Victims(sessions: map<string, Session>, sub: string, sid: Option<string>): set<string> {
    var bySid := set k | k in sessions && sessions[k].sub == sub && sid.Some? && sessions[k].sid == sid;
    if bySid != {} then bySid else set k | k in sessions && sessions[k].sub == sub
  }

  function Process(s: State, d: Delivery, maxSkew: int): (State, Outcome) {
    if !Accepts(d.token, maxSkew, d.wall) then (s, Rejected)
    else if Seen(s.deadlines, d.token.jti.value, d.mono) then (s, Ignored)
    else
      (State(s.deadlines[d.token.jti.value := d.mono + (maxSkew + 60) as real],
             s.sessions - Victims(s.sessions, d.token.sub.value, d.token.sid)),
       LoggedOut)
  }

  predicate HasSid(sessions: map<string, Session>, user: string, sid: Option<string>) {
    sid.Some? && exists k :: k in sessions && sessions[k] == Session(user, sid)
  }

  /** The user's sessions with the session id are gone if there was one, else all sessions of the user;
      nobody else's is, and none is new. */
  ghost predicate SignsOut(before: map<string, Session>, after: map<string, Session>, user: string, sid: Option<string>)
  {
    && (forall k | k in after :: k in before && after[k] == before[k])
    && (forall k | k in before && before[k].sub != user :: k in after)
    && (if HasSid(before, user, sid)
        then forall k | k in before && before[k].sub == user :: k in after <==> before[k].sid != sid
        else forall k | k in after :: after[k].sub != user)
  }

  /** Which outcome a delivery has, and what it deletes. */
  lemma LogoutSignsOut(s: State, d: Delivery, maxSkew: int)
    ensures var (t, outcome) := Process(s, d, maxSkew);
      && (outcome == Rejected <==>
            || d.wall.Floor - d.token.iat > maxSkew || !d.token.hasLogoutEvent
            || d.token.jti.None? || d.token.sub.None?)
      && (outcome == Ignored ==> d.token.jti.value in s.deadlines && d.mono < s.deadlines[d.token.jti.value])
      && (outcome == LoggedOut ==> d.token.jti.value in s.deadlines ==> d.mono >= s.deadlines[d.token.jti.value])
    ensures var (t, outcome) := Process(s, d, maxSkew);
      if outcome == LoggedOut then
        && SignsOut(s.sessions, t.sessions, d.token.sub.value, d.token.sid)
        && d.token.jti.value in t.deadlines && t.deadlines[d.token.jti.value] == d.mono + maxSkew as real + 60.0
        && t.deadlines - {d.token.jti.value} == s.deadlines - {d.token.jti.value}
      else t == s
  {
    if Accepts(d.token, maxSkew, d.wall) {
      VictimsAreTheUsers(s.sessions, d.token.sub.value, d.token.sid);
    }
    hide Victims, SignsOut;
  }

  lemma VictimsAreTheUsers(sessions: map<string, Session>, user: string, sid: Option<string>)
    ensures SignsOut(sessions, sessions - Victims(sessions, user, sid), user, sid)
  {
    var bySid := set k | k in sessions && sessions[k].sub == user && sid.Some? && sessions[k].sid == sid;
    if HasSid(sessions, user, sid) {
      var k :| k in sessions && sessions[k] == Session(user, sid);
      assert k in bySid;
    }
  }

  function Outcomes(s: State, ds: seq<Delivery>, maxSkew: int): (outcomes: seq<Outcome>)
    ensures |outcomes| == |ds|
    decreases ds
  {
    if ds == [] then []
    else
      var (next, outcome) := Process(s, ds[0], maxSkew);
      [outcome] + Outcomes(next, ds[1..], maxSkew)
  }

  /** The same token delivered again: neither clock runs backwards, and the wall clock advances at
      least as fast as the monotonic one. */
  ghost predicate Later(first: Delivery, second: Delivery) {
    0.0 <= second.mono - first.mono <= second.wall - first.wall
  }

  ghost predicate ClocksAdvance(ds: seq<Delivery>) {
    forall i, j | 0 <= i < j < |ds| :: Later(ds[i], ds[j])
  }

  /** The entry a use left behind, or a later one. */
  ghost predicate Spent(s: State, first: Delivery, maxSkew: int) {
    && first.token.jti.Some?
    && first.token.jti.value in s.deadlines
    && s.deadlines[first.token.jti.value] >= first.mono + (maxSkew + 60) as real
  }

  /** When the entry has expired, so has the token. */
  lemma ExpiryOutlivesFreshness(first: Delivery, second: Delivery, maxSkew: int)
    requires Later(first, second) && second.mono >= first.mono + (maxSkew + 60) as real
    requires first.token.iat < first.wall.Floor + 60
    ensures !Fresh(first.token, maxSkew, second.wall)
  {
  }

  lemma ProcessKeepsSpent(s: State, first: Delivery, d: Delivery, maxSkew: int)
    requires Spent(s, first, maxSkew) && Later(first, d)
    ensures Spent(Process(s, d, maxSkew).0, first, maxSkew)
    ensures d.token == first.token && first.token.iat < first.wall.Floor + 60 ==>
              Process(s, d, maxSkew).1 != LoggedOut
  {
    if d.token == first.token && first.token.iat < first.wall.Floor + 60
       && d.mono >= first.mono + (maxSkew + 60) as real {
      ExpiryOutlivesFreshness(first, d, maxSkew);
    }
  }

  lemma {:induction false} SpentStaysUnused(s: State, first: Delivery, ds: seq<Delivery>, maxSkew: int, j: nat)
    requires Spent(s, first, maxSkew) && first.token.iat < first.wall.Floor + 60
    requires j < |ds| && ds[j].token == first.token
    requires forall i | 0 <= i < |ds| :: Later(first, ds[i])
    ensures Outcomes(s, ds, maxSkew)[j] != LoggedOut
    decreases j
  {
    ProcessKeepsSpent(s, first, ds[0], maxSkew);
    if j == 0 {
    } else {
      SpentStaysUnused(Process(s, ds[0], maxSkew).0, first, ds[1..], maxSkew, j - 1);
    }
  }

  /** One token logs out at most once over any run, if it was not issued a minute or more in the
      future when it was first used. */
  lemma {:induction false} TokenUsedAtMostOnce(s: State, ds: seq<Delivery>, maxSkew: int, i: nat, j: nat)
    requires ClocksAdvance(ds)
    requires i < j < |ds| && ds[i].token == ds[j].token
    requires ds[i].token.iat < ds[i].wall.Floor + 60
    ensures !(Outcomes(s, ds, maxSkew)[i] == Outcomes(s, ds, maxSkew)[j] == LoggedOut)
    decreases i
  {
    var next := Process(s, ds[0], maxSkew).0;
    if i > 0 {
      TokenUsedAtMostOnce(next, ds[1..], maxSkew, i - 1, j - 1);
    } else if Process(s, ds[0], maxSkew).1 == LoggedOut {
      SpentStaysUnused(next, ds[0], ds[1..], maxSkew, j - 1);
    }
  }

  /** That bound on `iat` is exact: a used token can be used again later if and only if it was issued
      at least 60 whole seconds ahead of the wall clock of its first use. */
  lemma SecondUseIff(s: State, first: Delivery, maxSkew: int)
    requires Process(s, first, maxSkew).1 == LoggedOut
    ensures (exists d: Delivery :: d.token == first.token && Later(first, d)
                         && Process(Process(s, first, maxSkew).0, d, maxSkew).1 == LoggedOut)
       <==> first.token.iat >= first.wall.Floor + 60
  {
    var next := Process(s, first, maxSkew).0;
    if first.token.iat >= first.wall.Floor + 60 {
      var wait := if maxSkew + 60 >= 0 then (maxSkew + 60) as real else 0.0;
      var d := Delivery(first.token, first.wall + wait, first.mono + wait);
      assert d.wall.Floor == first.wall.Floor + wait.Floor;
      assert Later(first, d) && Process(next, d, maxSkew).1 == LoggedOut;
    } else {
      forall d: Delivery | d.token == first.token && Later(first, d)
        ensures Process(next, d, maxSkew).1 != LoggedOut
      {
        ProcessKeepsSpent(next, first, d, maxSkew);
      }
    }
  }

  /** The endpoint over the in-process cache: what it does is one `Process` step. */
  class LogoutEndpoint {
    const maxSkew: int
    const cache: MemoryReplayCache
    const manager: ConnectionManager
    var sessions: map<string, Session>

    ghost function View(): State
      reads this, cache
    {
      State(cache.added, sessions)
    }

    constructor (maxSkew: int, manager: ConnectionManager, now: real)
      ensures cache.Valid() && cache.clock == now && cache.ttl == maxSkew + 60 && fresh(cache)
      ensures this.manager == manager
      ensures View() == State(map[], map[]) && this.maxSkew == maxSkew
    {
      this.maxSkew := maxSkew;
      this.manager := manager;
      cache := new MemoryReplayCache(maxSkew + 60, now);
      sessions := map[];
    }

    /** A logout also closes the user's sockets and nobody else's; otherwise all stay open. */
    method ProcessLogoutToken(token: Token, wall: real, mono: real) returns (outcome: Outcome)
      requires cache.Valid() && cache.clock <= mono && cache.ttl == maxSkew + 60 && manager.Valid()
      modifies this, cache, manager`connections, manager`sessionIds
      ensures cache.Valid() && cache.clock <= mono && manager.Valid()
      ensures forall u :: SocketsOf(manager.connections, u)
                == if outcome == LoggedOut && token.sub == Some(u) then {} else SocketsOf(old(manager.connections), u)
      ensures (View(), outcome) == Process(old(View()), Delivery(token, wall, mono), maxSkew)
      ensures outcome == LoggedOut ==>
                token.sub.Some? && SignsOut(old(sessions), sessions, token.sub.value, token.sid)
      ensures outcome != LoggedOut ==> sessions == old(sessions)
    {
      LogoutSignsOut(View(), Delivery(token, wall, mono), maxSkew);
      hide SignsOut;
      if wall.Floor - token.iat > maxSkew || !token.hasLogoutEvent {
        return Rejected;
      }
      if token.jti.None? || token.sub.None? {
        return Rejected;
      }
      var replay := cache.CheckAndAdd(token.jti.value, mono, mono);
      if replay {
        return Ignored;
      }
      var sub := token.sub.value;
      var deleted := set k | k in sessions && sessions[k].sub == sub && token.sid.Some? && sessions[k].sid == token.sid;
      if deleted == {} {
        deleted := set k | k in sessions && sessions[k].sub == sub;
      }
      sessions := sessions - deleted;
      var _ := manager.DisconnectSub(sub);
      return LoggedOut;
    }
  }
}

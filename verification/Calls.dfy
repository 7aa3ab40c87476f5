/** The 1:1 call protocol with each frame handled in one step (app/ws/calls.py). */
module Calls {
  import opened Prelude
  import opened Throttle

  type Pair = (Sub, Sub)

  const PAYLOAD_MAX := 16384
  const ICE_INTERVAL := 0.01

  datatype Phase = Ringing | Connected
  datatype Kind = Audio | Video
  datatype Status = Accepted | Rejected | Missed

  /** A row of the call log; its id is its index. `status` is unset while the call rings. */
  datatype Row = Row(caller: Sub, callee: Sub, kind: Kind, status: Option<Status>, ended: bool)

  /** `calls` and `logIds` are the manager's two dictionaries, `log` is the persistent table. */
  datatype System = System(calls: map<Pair, Phase>, iceSlots: map<Pair, real>, logIds: map<Pair, nat>, log: seq<Row>)

  const IDLE := System(map[], map[], map[], [])

  /** The `op` of a frame; `Unknown` is anything outside CALL_OPS. */
  datatype Op = Offer | Answer | Ice | Reject | End | Unknown

  /** A frame with the facts that are read while it is handled. */
  datatype Frame = Frame(op: Op, sender: Sub, target: Option<Sub>, kind: Option<Kind>, payloadSize: nat,
                         friends: bool, online: bool, now: real)

  datatype Notice = Relay(op: Op) | Error | Unavailable | Busy | Invalid
  datatype Sent = Sent(to: Sub, what: Notice)

  /** Well-formed, not to oneself, not oversized, and between friends. */
  predicate Admissible(f: Frame) {
    && f.op != Unknown
    && f.target.Some?
    && f.sender != f.target.value
    && f.payloadSize <= PAYLOAD_MAX
    && f.friends
  }

  function KeyOf(f: Frame): Pair
    requires f.target.Some?
  {
    PairKey(f.sender, f.target.value)
  }

  function KindOf(f: Frame): Kind {
    if f.kind.Some? then f.kind.value else Audio
  }

  function Opened(s: System, f: Frame): System
    requires f.target.Some?
  {
    var k := KeyOf(f);
    s.(calls := s.calls[k := Ringing],
       logIds := s.logIds[k := |s.log|],
       log := s.log + [Row(f.sender, f.target.value, KindOf(f), None, false)])
  }

  function MissedCall(s: System, f: Frame): System
    requires f.target.Some?
  {
    s.(log := s.log + [Row(f.sender, f.target.value, KindOf(f), Some(Missed), true)])
  }

  function Updated(log: seq<Row>, id: nat, status: Status, ended: bool): seq<Row> {
    if id < |log| then log[id := log[id].(status := Some(status), ended := log[id].ended || ended)] else log
  }

  function Answered(s: System, f: Frame): System
    requires f.target.Some?
  {
    var k := KeyOf(f);
    s.(calls := s.calls[k := Connected],
       log := if k in s.logIds then Updated(s.log, s.logIds[k], Accepted, false) else s.log)
  }

  function ClosingStatus(s: System, f: Frame): Status
    requires f.target.Some?
  {
    var k := KeyOf(f);
    if f.op == Reject then Rejected
    else if k in s.calls && s.calls[k] == Connected then Accepted
    else Missed
  }

  function Closed(s: System, f: Frame): System
    requires f.target.Some?
  {
    var k := KeyOf(f);
    s.(calls := s.calls - {k},
       logIds := s.logIds - {k},
       log := if k in s.logIds then Updated(s.log, s.logIds[k], ClosingStatus(s, f), true) else s.log)
  }

  predicate Answers(s: System, f: Frame) {
    Admissible(f) && f.op == Answer && KeyOf(f) in s.calls && s.calls[KeyOf(f)] == Ringing
  }

  predicate Opens(s: System, f: Frame) {
    Admissible(f) && f.op == Offer && f.online && KeyOf(f) !in s.calls
  }

  /** One frame, and what is sent because of it. */
  function Handle(s: System, f: Frame): (System, seq<Sent>) {
    if f.op == Unknown || f.target.None? || f.sender == f.target.value then (s, [])
    else if f.payloadSize > PAYLOAD_MAX then (s, [Sent(f.sender, Error)])
    else if !f.friends then (s, [])
    else
      var k := KeyOf(f);
      match f.op
      case Offer =>
        if !f.online then (MissedCall(s, f), [Sent(f.sender, Unavailable)])
        else if k in s.calls then (MissedCall(s, f), [Sent(f.sender, Busy)])
        else (Opened(s, f), [Sent(f.target.value, Relay(Offer))])
      case Answer =>
        if k in s.calls && s.calls[k] == Ringing then (Answered(s, f), [Sent(f.target.value, Relay(Answer))])
        else (s, [Sent(f.sender, Invalid)])
      case Ice =>
        if k !in s.calls || TooSoon(s.iceSlots, k, f.now, ICE_INTERVAL) then (s, [])
        else (s.(iceSlots := Next(s.iceSlots, k, f.now, ICE_INTERVAL)), [Sent(f.target.value, Relay(Ice))])
      case Reject | End => (Closed(s, f), [Sent(f.target.value, Relay(f.op))])
  }

  function Run(s: System, fs: seq<Frame>): System
    decreases |fs|
  {
    if fs == [] then s else Handle(Run(s, fs[..|fs| - 1]), fs[|fs| - 1]).0
  }

  // ---------------------------------------------------------------------------------------------
  // What is sent, and to whom

  /** A frame that can be read, from one user to another, and too large. */
  predicate Oversized(f: Frame) {
    f.op != Unknown && f.target.Some? && f.sender != f.target.value && f.payloadSize > 16384
  }

  /** The frames that reach the other side: an offer to somebody online in an idle pair, an answer to a
      ringing one, every reject and end, and candidates of an active pair no faster than every 10 ms. */
  predicate GetsThrough(s: System, f: Frame) {
    && Admissible(f)
    && match f.op
       case Offer => f.online && KeyOf(f) !in s.calls
       case Answer => KeyOf(f) in s.calls && s.calls[KeyOf(f)] == Ringing
       case Ice => KeyOf(f) in s.calls && (KeyOf(f) in s.iceSlots ==> f.now - s.iceSlots[KeyOf(f)] >= 0.01)
       case Reject | End => true
       case Unknown => false
  }

  /** At most one thing is sent. What gets through goes to the target and only there; a notice that
      something is wrong goes to the sender and only there, each under its own condition. */
  lemma NoticesReachTheRightUser(s: System, f: Frame, u: Sub)
    ensures var out := Handle(s, f).1;
      && |out| <= 1
      && (forall op :: Sent(u, Relay(op)) in out <==> GetsThrough(s, f) && u == f.target.value && op == f.op)
      && (Sent(u, Error) in out <==> Oversized(f) && u == f.sender)
      && (Sent(u, Unavailable) in out <==> Admissible(f) && f.op == Offer && !f.online && u == f.sender)
      && (Sent(u, Busy) in out <==> Admissible(f) && f.op == Offer && f.online && KeyOf(f) in s.calls && u == f.sender)
      && (Sent(u, Invalid) in out <==> Admissible(f) && f.op == Answer && !GetsThrough(s, f) && u == f.sender)
  {
    hide PairKey, Next;
  }

  lemma NoticesAreAddressed(s: System, f: Frame)
    ensures GetsThrough(s, f) ==> Handle(s, f).1 == [Sent(f.target.value, Relay(f.op))]
    ensures forall m | m in Handle(s, f).1 :: if m.what.Relay? then f.target == Some(m.to) else m.to == f.sender
  {
    hide PairKey, Next;
  }

  /** Only an admissible offer adds a row. It names the sender as caller, the target as callee and the
      kind asked for, audio by default; it is open if the offer rings and a missed call otherwise. */
  lemma OfferWritesRow(s: System, f: Frame)
    ensures var t := Handle(s, f).0;
      if Admissible(f) && f.op == Offer then
        && |t.log| == |s.log| + 1 && t.log[..|s.log|] == s.log
        && var r := t.log[|s.log|];
        && r.caller == f.sender && r.callee == f.target.value
        && (r.kind == Video <==> f.kind == Some(Video))
        && (if GetsThrough(s, f) then r.status.None? && !r.ended else r.status == Some(Missed) && r.ended)
      else |t.log| == |s.log|
  {
    hide PairKey, Next, TooSoon;
  }

  // ---------------------------------------------------------------------------------------------
  // Open log rows and active pairs

  function RowKey(r: Row): Pair {
    PairKey(r.caller, r.callee)
  }

  /** Active pairs and open rows are in bijection, by `logIds`. */
  ghost predicate InSync(s: System) {
    && s.calls.Keys == s.logIds.Keys
    && (forall k | k in s.logIds ::
          s.logIds[k] < |s.log| && !s.log[s.logIds[k]].ended && RowKey(s.log[s.logIds[k]]) == k)
    && (forall id | 0 <= id < |s.log| && !s.log[id].ended ::
          RowKey(s.log[id]) in s.logIds && s.logIds[RowKey(s.log[id])] == id)
  }

  /** The bijection in so many words. */
  lemma InSyncIsBijection(s: System)
    requires InSync(s)
    ensures forall k | k in s.calls :: k in s.logIds && !s.log[s.logIds[k]].ended
    ensures forall j, k | j in s.calls && k in s.calls && s.logIds[j] == s.logIds[k] :: j == k
    ensures forall id | 0 <= id < |s.log| && !s.log[id].ended :: exists k :: k in s.calls && s.logIds[k] == id
  {
    forall id | 0 <= id < |s.log| && !s.log[id].ended
      ensures exists k :: k in s.calls && s.logIds[k] == id
    {
      assert RowKey(s.log[id]) in s.calls;
    }
  }

  lemma OpenedKeepsSync(s: System, f: Frame)
    requires InSync(s) && f.target.Some? && KeyOf(f) !in s.calls
    ensures InSync(Opened(s, f))
  {
    hide PairKey, KindOf;
  }

  lemma MissedKeepsSync(s: System, f: Frame)
    requires InSync(s) && f.target.Some?
    ensures InSync(MissedCall(s, f))
  {
  }

  lemma AnsweredKeepsSync(s: System, f: Frame)
    requires InSync(s) && f.target.Some? && KeyOf(f) in s.calls
    ensures InSync(Answered(s, f))
  {
  }

  lemma ClosedKeepsSync(s: System, f: Frame)
    requires InSync(s) && f.target.Some?
    ensures InSync(Closed(s, f))
  {
    hide PairKey, ClosingStatus;
  }

  lemma HandleKeepsSync(s: System, f: Frame)
    requires InSync(s)
    ensures InSync(Handle(s, f).0)
  {
    hide Opened, MissedCall, Answered, Closed, InSync;
    if Admissible(f) {
      match f.op
      case Offer =>
        if Opens(s, f) { OpenedKeepsSync(s, f); } else { MissedKeepsSync(s, f); }
      case Answer =>
        if Answers(s, f) { AnsweredKeepsSync(s, f); }
      case Ice => IceKeepsSync(s, Handle(s, f).0);
      case Reject | End => ClosedKeepsSync(s, f);
    }
  }

  lemma IceKeepsSync(s: System, t: System)
    requires InSync(s) && t == s.(iceSlots := t.iceSlots)
    ensures InSync(t)
  {
  }

  lemma {:induction false} RunKeepsSync(fs: seq<Frame>)
    ensures InSync(Run(IDLE, fs))
  {
    if fs == [] {
    } else {
      RunKeepsSync(fs[..|fs| - 1]);
      HandleKeepsSync(Run(IDLE, fs[..|fs| - 1]), fs[|fs| - 1]);
    }
  }

  // ---------------------------------------------------------------------------------------------
  // The final status of a row is a function of the trace

  /** The system after the first n frames. */
  function At(fs: seq<Frame>, n: nat): System
    requires n <= |fs|
  {
    Run(IDLE, fs[..n])
  }

  lemma AtStep(fs: seq<Frame>, n: nat)
    requires n < |fs|
    ensures At(fs, n + 1) == Handle(At(fs, n), fs[n]).0
    ensures InSync(At(fs, n)) && InSync(At(fs, n + 1))
  {
    assert fs[..n + 1][..n] == fs[..n];
    RunKeepsSync(fs[..n]);
    RunKeepsSync(fs[..n + 1]);
  }

  /** Frame i is the offer that opens row `id`. */
  ghost predicate OpenedAt(fs: seq<Frame>, i: nat, id: nat)
    requires i < |fs|
  {
    Opens(At(fs, i), fs[i]) && |At(fs, i).log| == id
  }

  ghost predicate OpenAt(fs: seq<Frame>, n: nat, id: nat)
    requires n <= |fs|
  {
    id < |At(fs, n).log| && !At(fs, n).log[id].ended
  }

  /** Frame j closes row `id`. */
  ghost predicate ClosedAt(fs: seq<Frame>, j: nat, id: nat)
    requires j < |fs|
  {
    OpenAt(fs, j, id) && !OpenAt(fs, j + 1, id)
  }

  /** Frame m is a successful answer in the pair of frame i. */
  ghost predicate AnsweredAt(fs: seq<Frame>, i: nat, m: nat)
    requires i < |fs| && m < |fs| && fs[i].target.Some?
  {
    Answers(At(fs, m), fs[m]) && KeyOf(fs[m]) == KeyOf(fs[i])
  }

  ghost predicate AnsweredBetween(fs: seq<Frame>, i: nat, n: nat)
    requires i < n <= |fs| && fs[i].target.Some?
  {
    exists m: nat :: i < m < n && AnsweredAt(fs, i, m)
  }

  predicate SameCall(r: Row, q: Row) {
    r.caller == q.caller && r.callee == q.callee && r.kind == q.kind
  }

  /** A frame never shortens the log, keeps who called whom and how, and leaves closed rows alone. */
  lemma HandleKeepsRows(s: System, f: Frame, id: nat)
    requires InSync(s) && id < |s.log|
    ensures var t := Handle(s, f).0;
      && id < |t.log|
      && SameCall(t.log[id], s.log[id]) && RowKey(t.log[id]) == RowKey(s.log[id])
      && (s.log[id].ended ==> t.log[id] == s.log[id])
  {
    hide PairKey, TooSoon, Next, KindOf;
  }

  /** Row `id` is the open row of the active pair k, which is connected as told. */
  ghost predicate Tracks(s: System, k: Pair, id: nat, connected: bool) {
    && id < |s.log| && !s.log[id].ended && RowKey(s.log[id]) == k
    && s.log[id].status == (if connected then Some(Accepted) else None)
    && k in s.calls && k in s.logIds && s.logIds[k] == id
    && (s.calls[k] == Connected <==> connected)
  }

  lemma OpeningTracks(s: System, f: Frame)
    requires Opens(s, f)
    ensures Tracks(Handle(s, f).0, KeyOf(f), |s.log|, false)
  {
  }

  lemma StatusStep(s: System, f: Frame, id: nat)
    requires InSync(s) && id < |s.log| && !s.log[id].ended
    requires id < |Handle(s, f).0.log| && !Handle(s, f).0.log[id].ended
    ensures Handle(s, f).0.log[id].status ==
              if Answers(s, f) && KeyOf(f) == RowKey(s.log[id]) then Some(Accepted) else s.log[id].status
  {
    hide PairKey, TooSoon, Next, KindOf;
  }

  lemma StepTracks(s: System, f: Frame, k: Pair, id: nat, connected: bool)
    requires InSync(s) && InSync(Handle(s, f).0) && Tracks(s, k, id, connected)
    requires id < |Handle(s, f).0.log| && !Handle(s, f).0.log[id].ended
    ensures Tracks(Handle(s, f).0, k, id, connected || (Answers(s, f) && KeyOf(f) == k))
  {
    HandleKeepsRows(s, f, id);
    StatusStep(s, f, id);
    hide Handle, Answers;
    if k in Handle(s, f).0.calls { PhaseStep(s, f, k); }
  }

  /** While its row is open the pair is active, and connected exactly if an answer came through. */
  lemma {:induction false} OpenRowTracksPair(fs: seq<Frame>, i: nat, id: nat, n: nat)
    requires i < n <= |fs| && OpenedAt(fs, i, id) && OpenAt(fs, n, id)
    ensures Tracks(At(fs, n), KeyOf(fs[i]), id, AnsweredBetween(fs, i, n))
  {
    hide Handle, Answers, Tracks, InSync, At, KeyOf;
    AtStep(fs, n - 1);
    if n == i + 1 {
      OpeningTracks(At(fs, i), fs[i]);
      assert !AnsweredBetween(fs, i, n);
    } else {
      OpenEarlier(fs, i, id, n);
      OpenRowTracksPair(fs, i, id, n - 1);
      StepTracks(At(fs, n - 1), fs[n - 1], KeyOf(fs[i]), id, AnsweredBetween(fs, i, n - 1));
      BetweenStep(fs, i, n);
    }
  }

  lemma BetweenStep(fs: seq<Frame>, i: nat, n: nat)
    requires i + 1 < n <= |fs| && fs[i].target.Some?
    ensures AnsweredBetween(fs, i, n) <==> AnsweredBetween(fs, i, n - 1) || AnsweredAt(fs, i, n - 1)
  {
    hide AnsweredAt;
    if AnsweredBetween(fs, i, n - 1) {
      var m: nat :| i < m < n - 1 && AnsweredAt(fs, i, m);
      assert i < m < n && AnsweredAt(fs, i, m);
    }
  }

  lemma OpeningAppends(s: System, f: Frame)
    requires Opens(s, f)
    ensures |Handle(s, f).0.log| == |s.log| + 1
  {
  }

  lemma OpenEarlier(fs: seq<Frame>, i: nat, id: nat, n: nat)
    requires i + 1 < n <= |fs| && OpenedAt(fs, i, id) && OpenAt(fs, n, id)
    ensures OpenAt(fs, n - 1, id)
  {
    hide Handle, At, InSync, Opens;
    OpeningAppends(At(fs, i), fs[i]);
    AtStep(fs, i);
    AtStep(fs, n - 1);
    LogGrows(fs, i + 1, n - 1);
    HandleKeepsRows(At(fs, n - 1), fs[n - 1], id);
  }

  lemma PhaseStep(s: System, f: Frame, k: Pair)
    requires k in s.calls && k in Handle(s, f).0.calls
    ensures Handle(s, f).0.calls[k] == Connected <==>
              s.calls[k] == Connected || (Answers(s, f) && KeyOf(f) == k)
  {
  }

  lemma {:induction false} LogGrows(fs: seq<Frame>, m: nat, n: nat)
    requires m <= n <= |fs|
    ensures |At(fs, m).log| <= |At(fs, n).log|
    decreases n - m
  {
    if m == n {
    } else {
      LogGrows(fs, m, n - 1);
      AtStep(fs, n - 1);
    }
  }

  lemma {:induction false} ClosedRowIsFrozen(fs: seq<Frame>, id: nat, m: nat, n: nat)
    requires m <= n <= |fs| && id < |At(fs, m).log| && At(fs, m).log[id].ended
    ensures id < |At(fs, n).log| && At(fs, n).log[id] == At(fs, m).log[id]
    decreases n - m
  {
    if m == n {
    } else {
      AtStep(fs, m);
      HandleKeepsRows(At(fs, m), fs[m], id);
      ClosedRowIsFrozen(fs, id, m + 1, n);
    }
  }

  /** What closes an open row is a reject or an end in its pair. */
  lemma ClosingStep(s: System, f: Frame, id: nat)
    requires InSync(s) && id < |s.log| && !s.log[id].ended
    requires Handle(s, f).0.log[id].ended
    ensures Admissible(f) && f.op in {Reject, End} && KeyOf(f) == RowKey(s.log[id])
    ensures Handle(s, f).0.log[id].status == Some(ClosingStatus(s, f))
  {
  }

  /** Rejected iff a reject closed it; otherwise accepted iff it was answered before, else missed. */
  lemma ClosedStatusFixedByTrace(fs: seq<Frame>, id: nat, i: nat, j: nat)
    requires i < j < |fs| && OpenedAt(fs, i, id) && ClosedAt(fs, j, id)
    ensures id < |At(fs, |fs|).log| && At(fs, |fs|).log[id].ended
    ensures fs[j].op in {Reject, End} && Admissible(fs[j]) && KeyOf(fs[j]) == KeyOf(fs[i])
    ensures At(fs, |fs|).log[id].status ==
              Some(if fs[j].op == Reject then Rejected
                   else if AnsweredBetween(fs, i, j) then Accepted
                   else Missed)
  {
    AtStep(fs, j);
    HandleKeepsRows(At(fs, j), fs[j], id);
    OpenRowTracksPair(fs, i, id, j);
    ClosingStep(At(fs, j), fs[j], id);
    ClosedRowIsFrozen(fs, id, j + 1, |fs|);
  }

  /** Frame i is an offer that cannot ring and is written at once as the missed call `id`. */
  ghost predicate MissedAt(fs: seq<Frame>, i: nat, id: nat)
    requires i < |fs|
  {
    Admissible(fs[i]) && fs[i].op == Offer && !Opens(At(fs, i), fs[i]) && |At(fs, i).log| == id
  }

  /** A frame adds at most one row: an open one by an offer that rings, or a missed call. */
  lemma NewRow(s: System, f: Frame, id: nat)
    requires |s.log| <= id < |Handle(s, f).0.log|
    ensures id == |s.log|
    ensures if Handle(s, f).0.log[id].ended
            then Handle(s, f).0.log[id].status == Some(Missed) && Admissible(f) && f.op == Offer && !Opens(s, f)
            else Opens(s, f)
  {
  }

  ghost predicate WrittenMissed(fs: seq<Frame>, id: nat, n: nat)
    requires n <= |fs|
  {
    exists i: nat :: i < n && MissedAt(fs, i, id)
  }

  ghost predicate OpenedBefore(fs: seq<Frame>, id: nat, n: nat)
    requires n <= |fs|
  {
    exists i: nat :: i < n && OpenedAt(fs, i, id)
  }

  ghost predicate OpenedThenClosed(fs: seq<Frame>, id: nat, n: nat)
    requires n <= |fs|
  {
    exists i: nat, j: nat :: i < j < n && OpenedAt(fs, i, id) && ClosedAt(fs, j, id)
  }

  lemma HistoryGrows(fs: seq<Frame>, id: nat, n: nat)
    requires n < |fs|
    ensures WrittenMissed(fs, id, n) ==> WrittenMissed(fs, id, n + 1)
    ensures OpenedBefore(fs, id, n) ==> OpenedBefore(fs, id, n + 1)
    ensures OpenedThenClosed(fs, id, n) ==> OpenedThenClosed(fs, id, n + 1)
    ensures OpenedBefore(fs, id, n) && ClosedAt(fs, n, id) ==> OpenedThenClosed(fs, id, n + 1)
  {
    hide MissedAt, OpenedAt, ClosedAt;
  }

  /** Every closed row was either written as a missed call at once, or opened and later closed; every
      open row was opened. */
  lemma {:induction false} ClosedRowHasHistory(fs: seq<Frame>, id: nat, n: nat)
    requires n <= |fs| && id < |At(fs, n).log|
    ensures At(fs, n).log[id].ended ==>
              || (At(fs, n).log[id].status == Some(Missed) && WrittenMissed(fs, id, n))
              || OpenedThenClosed(fs, id, n)
    ensures !At(fs, n).log[id].ended ==> OpenedBefore(fs, id, n)
  {
    if n == 0 {
    } else {
      var s, f := At(fs, n - 1), fs[n - 1];
      AtStep(fs, n - 1);
      HistoryGrows(fs, id, n - 1);
      hide Handle, InSync, At, WrittenMissed, OpenedBefore, OpenedThenClosed, Admissible, Opens;
      ClosingFrame(fs, id, n - 1);
      hide ClosedAt, OpenedAt, MissedAt;
      if id < |s.log| {
        HandleKeepsRows(s, f, id);
        ClosedRowHasHistory(fs, id, n - 1);
      } else {
        NewRow(s, f, id);
        FirstFrameOf(fs, id, n - 1);
      }
    }
  }

  /** Frame i is the offer that row `id` is about. */
  ghost predicate IsCallOf(fs: seq<Frame>, i: nat, id: nat, r: Row)
    requires i < |fs|
  {
    && Admissible(fs[i]) && fs[i].op == Offer && |At(fs, i).log| == id
    && r.caller == fs[i].sender && r.callee == fs[i].target.value && (r.kind == Video <==> fs[i].kind == Some(Video))
  }

  /** Every row of the log stems from an offer and says who called whom, and how. */
  lemma {:induction false} EveryRowIsACall(fs: seq<Frame>, id: nat, n: nat)
    requires n <= |fs| && id < |At(fs, n).log|
    ensures exists i: nat :: i < n && IsCallOf(fs, i, id, At(fs, n).log[id])
  {
    if n == 0 {
    } else {
      var s, f := At(fs, n - 1), fs[n - 1];
      AtStep(fs, n - 1);
      OfferWritesRow(s, f);
      hide Handle, InSync, At, Admissible;
      if id < |s.log| {
        HandleKeepsRows(s, f, id);
        EveryRowIsACall(fs, id, n - 1);
        var i: nat :| i < n - 1 && IsCallOf(fs, i, id, s.log[id]);
        assert IsCallOf(fs, i, id, At(fs, n).log[id]);
      } else {
        assert IsCallOf(fs, n - 1, id, At(fs, n).log[id]);
      }
    }
  }

  lemma ClosingFrame(fs: seq<Frame>, id: nat, n: nat)
    requires n < |fs|
    ensures OpenAt(fs, n, id) && !OpenAt(fs, n + 1, id) ==> ClosedAt(fs, n, id)
  {
    hide At;
  }

  lemma FirstFrameOf(fs: seq<Frame>, id: nat, i: nat)
    requires i < |fs|
    ensures Opens(At(fs, i), fs[i]) && |At(fs, i).log| == id ==> OpenedBefore(fs, id, i + 1)
    ensures Admissible(fs[i]) && fs[i].op == Offer && !Opens(At(fs, i), fs[i]) && |At(fs, i).log| == id ==>
              WrittenMissed(fs, id, i + 1)
  {
    hide At, Opens, Admissible;
    assert OpenedAt(fs, i, id) || !(Opens(At(fs, i), fs[i]) && |At(fs, i).log| == id);
    if Admissible(fs[i]) && fs[i].op == Offer && !Opens(At(fs, i), fs[i]) && |At(fs, i).log| == id {
      assert MissedAt(fs, i, id);
    }
  }

  // ---------------------------------------------------------------------------------------------
  // ICE candidates are throttled

  /** Frame i is a candidate of the pair k that gets through. */
  ghost predicate CandidateAt(fs: seq<Frame>, i: nat, k: Pair)
    requires i < |fs|
  {
    fs[i].op == Ice && GetsThrough(At(fs, i), fs[i]) && KeyOf(fs[i]) == k
  }

  lemma SlotStep(s: System, f: Frame, k: Pair, since: real)
    requires k in s.iceSlots && s.iceSlots[k] >= since && f.now >= s.iceSlots[k]
    ensures var slots := Handle(s, f).0.iceSlots;
      (k in slots && since <= slots[k] <= f.now) || f.now - since >= 0.01
  {
    hide PairKey;
  }

  lemma SlotIsTaken(s: System, f: Frame)
    requires GetsThrough(s, f) && f.op == Ice
    ensures var slots := Handle(s, f).0.iceSlots; KeyOf(f) in slots && slots[KeyOf(f)] == f.now
  {
    hide PairKey;
  }

  lemma {:induction false} SlotIsKept(fs: seq<Frame>, i: nat, n: nat, k: Pair)
    requires i < n <= |fs| && CandidateAt(fs, i, k)
    requires forall a, b | 0 <= a < b < |fs| :: fs[a].now <= fs[b].now
    ensures var slots := At(fs, n).iceSlots;
      (k in slots && fs[i].now <= slots[k] <= fs[n - 1].now) || fs[n - 1].now - fs[i].now >= 0.01
  {
    hide Handle, At, GetsThrough, InSync;
    AtStep(fs, n - 1);
    if n == i + 1 {
      SlotIsTaken(At(fs, i), fs[i]);
    } else {
      SlotIsKept(fs, i, n - 1, k);
      if fs[n - 2].now - fs[i].now < 0.01 { SlotStep(At(fs, n - 1), fs[n - 1], k, fs[i].now); }
    }
  }

  /** Two candidates of a pair that get through are at least 10 ms apart. */
  lemma CandidatesAreSpaced(fs: seq<Frame>, i: nat, j: nat, k: Pair)
    requires i < j < |fs| && CandidateAt(fs, i, k) && CandidateAt(fs, j, k)
    requires forall a, b | 0 <= a < b < |fs| :: fs[a].now <= fs[b].now
    ensures fs[j].now - fs[i].now >= 0.01
  {
    SlotIsKept(fs, i, j, k);
  }
}

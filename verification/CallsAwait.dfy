/** The call protocol with frames interleaved at every `await` (app/ws/calls.py).

    A handler runs without interruption between two awaits. What it does to the manager's
    dictionaries once the friendship check has returned is one step; every database write is a task
    that completes in a later step of its own, in any order. */
module CallsAwait {
  import opened Prelude
  import opened Calls

  datatype Task =
    | Recording(key: Pair, caller: Sub, callee: Sub, kind: Kind)   // an offer's row, not committed yet
    | Recorded(key: Pair, id: nat)                                // committed; set_log_id still to run
    | RecordingMissed(caller: Sub, callee: Sub, kind: Kind)
    | Updating(id: nat, status: Status, ended: bool)

  datatype Event = Offered(key: Pair) | Accepting(key: Pair) | HungUp(key: Pair) | RowClosed(id: nat)

  datatype World = World(calls: map<Pair, Phase>, logIds: map<Pair, nat>, log: seq<Row>,
                         tasks: map<nat, Task>, nextTask: nat, events: seq<Event>)

  const START := World(map[], map[], [], map[], 0, [])

  datatype Step =
    | Signal(op: Op, sender: Sub, target: Sub, kind: Kind, online: bool)
    | Resume(task: nat)

  function Spawn(w: World, t: Task): World {
    w.(tasks := w.tasks[w.nextTask := t], nextTask := w.nextTask + 1)
  }

  function Note(w: World, e: Event): World {
    w.(events := w.events + [e])
  }

  function OnOffer(w: World, s: Step): World
    requires s.Signal?
  {
    var k := PairKey(s.sender, s.target);
    if !s.online || k in w.calls then Spawn(w, RecordingMissed(s.sender, s.target, s.kind))
    else Note(Spawn(w.(calls := w.calls[k := Ringing]), Recording(k, s.sender, s.target, s.kind)), Offered(k))
  }

  function OnAnswer(w: World, k: Pair): World {
    if k !in w.calls || w.calls[k] != Ringing then w
    else
      var v := Note(w.(calls := w.calls[k := Connected]), Accepting(k));
      if k in w.logIds then Spawn(v, Updating(w.logIds[k], Accepted, false)) else v
  }

  function HangUpStatus(w: World, op: Op, k: Pair): Status {
    if op == Reject then Rejected
    else if k in w.calls && w.calls[k] == Connected then Accepted
    else Missed
  }

  function OnHangUp(w: World, op: Op, k: Pair): World {
    var v := Note(w.(calls := w.calls - {k}, logIds := w.logIds - {k}), HungUp(k));
    if k in w.logIds then Spawn(v, Updating(w.logIds[k], HangUpStatus(w, op, k), true)) else v
  }

  function OnResume(w: World, t: nat): World {
    if t !in w.tasks then w
    else
      match w.tasks[t]
      case Recording(k, caller, callee, kind) =>
        w.(log := w.log + [Row(caller, callee, kind, None, false)], tasks := w.tasks[t := Recorded(k, |w.log|)])
      case Recorded(k, id) => w.(logIds := w.logIds[k := id], tasks := w.tasks - {t})
      case RecordingMissed(caller, callee, kind) =>
        w.(log := w.log + [Row(caller, callee, kind, Some(Missed), true)], tasks := w.tasks - {t})
      case Updating(id, status, ended) =>
        var v := w.(log := Updated(w.log, id, status, ended), tasks := w.tasks - {t});
        if ended then Note(v, RowClosed(id)) else v
  }

  function Do(w: World, s: Step): World {
    match s
    case Resume(t) => OnResume(w, t)
    case Signal(op, sender, target, _, _) =>
      var k := PairKey(sender, target);
      match op
      case Offer => OnOffer(w, s)
      case Answer => OnAnswer(w, k)
      case Reject | End => OnHangUp(w, op, k)
      case Ice | Unknown => w
  }

  function Run(ss: seq<Step>): World
    decreases |ss|
  {
    if ss == [] then START else Do(Run(ss[..|ss| - 1]), ss[|ss| - 1])
  }

  // ---------------------------------------------------------------------------------------------
  // Each row is closed at most once

  /** Who may still close a row, or has closed it. */
  datatype Owner = ByTask(t: nat) | ByKey(k: Pair) | ByEvent(i: nat)

  ghost predicate Owns(w: World, o: Owner, id: nat) {
    match o
    case ByTask(t) => t in w.tasks && WillClose(w.tasks[t], id)
    case ByKey(k) => k in w.logIds && w.logIds[k] == id
    case ByEvent(i) => i < |w.events| && w.events[i] == RowClosed(id)
  }

  predicate WillClose(t: Task, id: nat) {
    match t
    case Recorded(_, i) => i == id
    case Updating(i, _, ended) => ended && i == id
    case _ => false
  }

  ghost predicate Safe(w: World) {
    && (forall t | t in w.tasks :: t < w.nextTask)
    && (forall o, id: nat | Owns(w, o, id) :: id < |w.log|)
    && (forall o, o', id: nat | Owns(w, o, id) && Owns(w, o', id) :: o == o')
    && (forall t | t in w.tasks && w.tasks[t].Updating? && !w.tasks[t].ended :: w.tasks[t].status == Accepted)
  }

  /** The owner before the step whose claim on a row the owner `o` took over. */
  ghost function Before(w: World, s: Step, o: Owner): Owner {
    match s
    case Signal(op, sender, target, _, _) =>
      if (op == Reject || op == End) && o == ByTask(w.nextTask) then ByKey(PairKey(sender, target)) else o
    case Resume(t) =>
      if t !in w.tasks then o
      else
        match w.tasks[t]
        case Recorded(k, _) => if o == ByKey(k) then ByTask(t) else o
        case Updating(_, _, ended) => if ended && o == ByEvent(|w.events|) then ByTask(t) else o
        case _ => o
  }

  /** A row is born with one owner, and a step only hands ownership on. */
  predicate Births(w: World, s: Step, o: Owner, id: nat) {
    s.Resume? && s.task in w.tasks && w.tasks[s.task].Recording? && o == ByTask(s.task) && id == |w.log|
  }

  lemma OwnershipMoves(w: World, s: Step, o: Owner, id: nat)
    requires Safe(w) && Owns(Do(w, s), o, id)
    ensures Births(w, s, o, id) || Owns(w, Before(w, s, o), id)
  {
  }

  lemma BeforeIsInjective(w: World, s: Step, o: Owner, o': Owner, id: nat)
    requires Safe(w) && Owns(Do(w, s), o, id) && Owns(Do(w, s), o', id)
    requires !Births(w, s, o, id) && !Births(w, s, o', id)
    requires Before(w, s, o) == Before(w, s, o')
    ensures o == o'
  {
  }

  lemma BirthIsFirst(w: World, s: Step, o: Owner, o': Owner, id: nat)
    requires Safe(w) && Owns(Do(w, s), o, id) && Owns(Do(w, s), o', id) && Births(w, s, o, id)
    ensures o == o'
  {
    OwnershipMoves(w, s, o', id);
  }

  lemma StepKeepsSafe(w: World, s: Step)
    requires Safe(w)
    ensures Safe(Do(w, s))
  {
    forall o, id: nat | Owns(Do(w, s), o, id)
      ensures id < |Do(w, s).log|
    {
      hide Owns;
      OwnershipMoves(w, s, o, id);
    }
    forall o, o', id: nat | Owns(Do(w, s), o, id) && Owns(Do(w, s), o', id)
      ensures o == o'
    {
      hide Owns, Do, Before;
      if Births(w, s, o, id) {
        BirthIsFirst(w, s, o, o', id);
      } else if Births(w, s, o', id) {
        BirthIsFirst(w, s, o', o, id);
      } else {
        OwnershipMoves(w, s, o, id);
        OwnershipMoves(w, s, o', id);
        BeforeIsInjective(w, s, o, o', id);
      }
    }
  }

  lemma {:induction false} RunIsSafe(ss: seq<Step>)
    ensures Safe(Run(ss))
  {
    if ss == [] {
    } else {
      RunIsSafe(ss[..|ss| - 1]);
      StepKeepsSafe(Run(ss[..|ss| - 1]), ss[|ss| - 1]);
    }
  }

  /** Over any interleaving a row is closed at most once. */
  lemma RowClosedAtMostOnce(ss: seq<Step>, i: nat, j: nat, id: nat)
    requires i < |Run(ss).events| && j < |Run(ss).events|
    requires Run(ss).events[i] == Run(ss).events[j] == RowClosed(id)
    ensures i == j
  {
    RunIsSafe(ss);
    assert Owns(Run(ss), ByEvent(i), id) && Owns(Run(ss), ByEvent(j), id);
  }

  // ---------------------------------------------------------------------------------------------
  // Offers, answers and hang-ups of one pair alternate

  datatype Stage = Quiet | Dialled | Talking | Broken

  function Advance(g: Stage, k: Pair, e: Event): Stage {
    match e
    case Offered(j) => if j != k then g else if g == Quiet then Dialled else Broken
    case Accepting(j) => if j != k then g else if g == Dialled then Talking else Broken
    case HungUp(j) => if j != k then g else if g == Broken then Broken else Quiet
    case RowClosed(_) => g
  }

  function StageOf(events: seq<Event>, k: Pair): Stage {
    if events == [] then Quiet
    else Advance(StageOf(events[..|events| - 1], k), k, events[|events| - 1])
  }

  function StageNow(w: World, k: Pair): Stage {
    if k !in w.calls then Quiet else if w.calls[k] == Ringing then Dialled else Talking
  }

  lemma NoteAdvances(w: World, e: Event, k: Pair)
    ensures StageOf(Note(w, e).events, k) == Advance(StageOf(w.events, k), k, e)
  {
  }

  lemma SignalKeepsStage(w: World, s: Step, k: Pair)
    requires s.Signal? && StageOf(w.events, k) == StageNow(w, k)
    ensures StageOf(Do(w, s).events, k) == StageNow(Do(w, s), k)
  {
    hide StageOf;
    var j := PairKey(s.sender, s.target);
    match s.op
    case Offer => NoteAdvances(w, Offered(j), k);
    case Answer => NoteAdvances(w, Accepting(j), k);
    case Reject | End => NoteAdvances(w, HungUp(j), k);
    case Ice | Unknown =>
  }

  lemma ResumeKeepsStage(w: World, t: nat, k: Pair)
    requires StageOf(w.events, k) == StageNow(w, k)
    ensures StageOf(OnResume(w, t).events, k) == StageNow(OnResume(w, t), k)
  {
    hide StageOf;
    if t in w.tasks && w.tasks[t].Updating? {
      NoteAdvances(w, RowClosed(w.tasks[t].id), k);
    }
  }

  lemma {:induction false} RunKeepsStage(ss: seq<Step>, k: Pair)
    ensures StageOf(Run(ss).events, k) == StageNow(Run(ss), k)
  {
    if ss == [] {
    } else {
      RunKeepsStage(ss[..|ss| - 1], k);
      var w, s := Run(ss[..|ss| - 1]), ss[|ss| - 1];
      if s.Signal? { SignalKeepsStage(w, s, k); } else { ResumeKeepsStage(w, s.task, k); }
    }
  }

  lemma {:induction false} UnbrokenPrefix(events: seq<Event>, k: Pair, n: nat)
    requires n <= |events| && StageOf(events, k) != Broken
    ensures StageOf(events[..n], k) != Broken
    decreases |events|
  {
    if n < |events| {
      UnbrokenPrefix(events[..|events| - 1], k, n);
      assert events[..|events| - 1][..n] == events[..n];
    } else {
      assert events[..n] == events;
    }
  }

  lemma StageStep(events: seq<Event>, k: Pair, n: nat)
    requires n < |events|
    ensures StageOf(events[..n + 1], k) == Advance(StageOf(events[..n], k), k, events[n])
  {
    assert events[..n + 1][..n] == events[..n];
  }

  ghost predicate HungUpBetween(events: seq<Event>, k: Pair, i: nat, j: nat) {
    exists m: nat :: i < m < j && m < |events| && events[m] == HungUp(k)
  }

  /** Without a hang-up a dialled pair stays busy, and a talking pair stays talking. */
  lemma {:induction false} BusyUntilHangUp(events: seq<Event>, k: Pair, i: nat, j: nat)
    requires i < j <= |events| && StageOf(events, k) != Broken
    requires events[i] == Offered(k) || events[i] == Accepting(k)
    requires !HungUpBetween(events, k, i, j)
    ensures StageOf(events[..j], k) in {Dialled, Talking}
    ensures events[i] == Accepting(k) ==> StageOf(events[..j], k) == Talking
    decreases j
  {
    StageStep(events, k, j - 1);
    UnbrokenPrefix(events, k, j);
    if j == i + 1 {
    } else {
      BusyUntilHangUp(events, k, i, j - 1);
      assert events[j - 1] != HungUp(k);
    }
  }

  /** Over any interleaving: between two successful offers of a pair somebody hung up, and so between
      two successful answers. */
  lemma HangUpSeparatesCalls(ss: seq<Step>, k: Pair, i: nat, j: nat)
    requires i < j < |Run(ss).events|
    requires Run(ss).events[i] == Run(ss).events[j]
    requires Run(ss).events[i] == Offered(k) || Run(ss).events[i] == Accepting(k)
    ensures HungUpBetween(Run(ss).events, k, i, j)
  {
    hide Run, StageOf;
    var events := Run(ss).events;
    RunKeepsStage(ss, k);
    if !HungUpBetween(events, k, i, j) {
      BusyUntilHangUp(events, k, i, j);
      StageStep(events, k, j);
      UnbrokenPrefix(events, k, j + 1);
    }
  }

  ghost predicate OfferedBetween(events: seq<Event>, k: Pair, i: nat, j: nat) {
    exists m: nat :: i < m < j && m < |events| && events[m] == Offered(k)
  }

  lemma {:induction false} QuietUntilOffer(events: seq<Event>, k: Pair, i: nat, j: nat)
    requires i < j <= |events| && StageOf(events, k) != Broken
    requires events[i] == HungUp(k) && !OfferedBetween(events, k, i, j)
    ensures StageOf(events[..j], k) == Quiet
    decreases j
  {
    StageStep(events, k, j - 1);
    UnbrokenPrefix(events, k, j);
    if j == i + 1 {
    } else {
      QuietUntilOffer(events, k, i, j - 1);
      assert events[j - 1] != Offered(k);
    }
  }

  /** Over any interleaving an offer gets at most one answer: a second answer has an offer of its own. */
  lemma OfferAnsweredAtMostOnce(ss: seq<Step>, k: Pair, i: nat, j: nat)
    requires i < j < |Run(ss).events|
    requires Run(ss).events[i] == Run(ss).events[j] == Accepting(k)
    ensures OfferedBetween(Run(ss).events, k, i, j)
  {
    hide Run, StageOf;
    var events := Run(ss).events;
    RunKeepsStage(ss, k);
    HangUpSeparatesCalls(ss, k, i, j);
    var m: nat :| i < m < j && m < |events| && events[m] == HungUp(k);
    if !OfferedBetween(events, k, m, j) {
      QuietUntilOffer(events, k, m, j);
      StageStep(events, k, j);
      UnbrokenPrefix(events, k, j + 1);
    }
  }

  // ---------------------------------------------------------------------------------------------
  // When the dictionaries and the log agree

  predicate RecordsFor(t: Task, k: Pair) {
    (t.Recording? || t.Recorded?) && t.key == k
  }

  ghost predicate RecordPending(w: World, k: Pair) {
    exists t :: t in w.tasks && RecordsFor(w.tasks[t], k)
  }

  /** A pair is idle, or active with its row on the way, or active with its row on file. */
  ghost predicate Settled(w: World, k: Pair) {
    && (k in w.calls <==> k in w.logIds || RecordPending(w, k))
    && !(k in w.logIds && RecordPending(w, k))
    && (forall t, t' | t in w.tasks && t' in w.tasks && RecordsFor(w.tasks[t], k) && RecordsFor(w.tasks[t'], k) ::
          t == t')
  }

  ghost predicate Tidy(w: World) {
    forall k :: Settled(w, k)
  }

  /** A reject or an end that overtakes the write of its call's row. */
  ghost predicate Overtakes(w: World, s: Step) {
    s.Signal? && (s.op == Reject || s.op == End) && RecordPending(w, PairKey(s.sender, s.target))
  }

  ghost predicate FreshIds(w: World) {
    forall t | t in w.tasks :: t < w.nextTask
  }

  lemma OfferKeepsSettled(w: World, s: Step, k: Pair)
    requires FreshIds(w) && Settled(w, k) && s.Signal?
    ensures Settled(OnOffer(w, s), k)
  {
    var v, j := OnOffer(w, s), PairKey(s.sender, s.target);
    assert v.tasks[w.nextTask] == Recording(j, s.sender, s.target, s.kind) || v.tasks[w.nextTask].RecordingMissed?;
    assert forall t | t in w.tasks :: t in v.tasks && v.tasks[t] == w.tasks[t];
    assert forall t | t in v.tasks && t != w.nextTask :: t in w.tasks;
  }

  lemma AnswerKeepsSettled(w: World, j: Pair, k: Pair)
    requires FreshIds(w) && Settled(w, k)
    ensures Settled(OnAnswer(w, j), k)
  {
    var v := OnAnswer(w, j);
    assert forall t | t in w.tasks :: t in v.tasks && v.tasks[t] == w.tasks[t];
    assert forall t | t in v.tasks && t !in w.tasks :: v.tasks[t].Updating?;
  }

  lemma HangUpSettles(w: World, op: Op, j: Pair, k: Pair)
    requires FreshIds(w) && Settled(w, k)
    ensures Settled(OnHangUp(w, op, j), k) <==> !(k == j && RecordPending(w, k))
  {
    var v := OnHangUp(w, op, j);
    assert forall t | t in w.tasks :: t in v.tasks && v.tasks[t] == w.tasks[t];
    assert forall t | t in v.tasks && t !in w.tasks :: v.tasks[t].Updating?;
  }

  lemma ResumeKeepsSettled(w: World, t: nat, k: Pair)
    requires Settled(w, k)
    ensures Settled(OnResume(w, t), k)
  {
    var v := OnResume(w, t);
    if t in w.tasks {
      assert forall u | u in w.tasks && u != t :: u in v.tasks && v.tasks[u] == w.tasks[u];
      assert forall u | u in v.tasks && u != t :: u in w.tasks;
      if w.tasks[t].Recording? {
        assert v.tasks[t].key == w.tasks[t].key;
      }
    }
  }

  /** A step keeps every pair settled if and only if it does not overtake a pending row. */
  lemma TidyStepIff(w: World, s: Step)
    requires FreshIds(w) && Tidy(w)
    ensures Tidy(Do(w, s)) <==> !Overtakes(w, s)
  {
    hide Settled, RecordPending;
    match s
    case Resume(t) =>
      forall k ensures Settled(Do(w, s), k) { ResumeKeepsSettled(w, t, k); }
    case Signal(op, sender, target, _, _) =>
      var j := PairKey(sender, target);
      match op
      case Offer => forall k ensures Settled(Do(w, s), k) { OfferKeepsSettled(w, s, k); }
      case Answer => forall k ensures Settled(Do(w, s), k) { AnswerKeepsSettled(w, j, k); }
      case Reject | End =>
        HangUpSettles(w, op, j, j);
        forall k | k != j ensures Settled(Do(w, s), k) { HangUpSettles(w, op, j, k); }
      case Ice | Unknown =>
  }

  function At(ss: seq<Step>, n: nat): World
    requires n <= |ss|
  {
    Run(ss[..n])
  }

  lemma AtStep(ss: seq<Step>, n: nat)
    requires n < |ss|
    ensures At(ss, n + 1) == Do(At(ss, n), ss[n])
    ensures Safe(At(ss, n)) && Safe(At(ss, n + 1))
  {
    assert ss[..n + 1][..n] == ss[..n];
    RunIsSafe(ss[..n]);
    RunIsSafe(ss[..n + 1]);
  }

  lemma {:induction false} TidyUpTo(ss: seq<Step>, n: nat)
    requires n <= |ss| && forall m | 0 <= m < n :: !Overtakes(At(ss, m), ss[m])
    ensures Tidy(At(ss, n))
  {
    if n == 0 {
    } else {
      TidyUpTo(ss, n - 1);
      AtStep(ss, n - 1);
      TidyStepIff(At(ss, n - 1), ss[n - 1]);
    }
  }

  /** A run is tidy throughout if and only if no hang-up in it overtakes a pending row. */
  lemma TidyThroughoutIff(ss: seq<Step>)
    ensures (forall n | 0 <= n <= |ss| :: Tidy(At(ss, n)))
       <==> (forall n | 0 <= n < |ss| :: !Overtakes(At(ss, n), ss[n]))
  {
    hide Tidy, Overtakes, At;
    if forall n | 0 <= n < |ss| :: !Overtakes(At(ss, n), ss[n]) {
      forall n | 0 <= n <= |ss| ensures Tidy(At(ss, n)) { TidyUpTo(ss, n); }
    }
    if forall n | 0 <= n <= |ss| :: Tidy(At(ss, n)) {
      forall n | 0 <= n < |ss| ensures !Overtakes(At(ss, n), ss[n]) {
        AtStep(ss, n);
        assert Tidy(At(ss, n)) && Tidy(At(ss, n + 1));
        TidyStepIff(At(ss, n), ss[n]);
      }
    }
  }

  /** Every owner's row is open and of the right pair. */
  ghost predicate OwnersOpen(w: World) {
    && (forall k | k in w.logIds ::
          w.logIds[k] < |w.log| && !w.log[w.logIds[k]].ended && RowKey(w.log[w.logIds[k]]) == k)
    && (forall t | t in w.tasks :: TaskOk(w.tasks[t], w.log))
  }

  ghost predicate TaskOk(t: Task, log: seq<Row>) {
    match t
    case Recording(k, caller, callee, _) => k == PairKey(caller, callee)
    case Recorded(k, id) => id < |log| && !log[id].ended && RowKey(log[id]) == k
    case Updating(id, _, ended) => ended ==> id < |log| && !log[id].ended
    case RecordingMissed(_, _, _) => true
  }

  /** Somebody will still close the row. */
  ghost predicate Owned(w: World, id: nat) {
    (exists k :: k in w.logIds && w.logIds[k] == id) || exists t :: t in w.tasks && WillClose(w.tasks[t], id)
  }

  ghost predicate OpenAreOwned(w: World) {
    forall id | 0 <= id < |w.log| && !w.log[id].ended :: Owned(w, id)
  }

  lemma SignalKeepsOwners(w: World, s: Step)
    requires s.Signal? && FreshIds(w) && OwnersOpen(w)
    ensures OwnersOpen(Do(w, s))
  {
  }

  lemma ResumeKeepsOwners(w: World, t: nat)
    requires Safe(w) && OwnersOpen(w)
    ensures OwnersOpen(OnResume(w, t))
  {
    hide Safe, WillClose;
    if t in w.tasks && w.tasks[t].Updating? && w.tasks[t].ended {
      CloserIsAlone(w, t);
      ClosingKeepsOwners(w, t);
    } else {
      OtherResumeKeepsOwners(w, t);
    }
  }

  lemma ClosingKeepsOwners(w: World, t: nat)
    requires OwnersOpen(w) && t in w.tasks && w.tasks[t].Updating? && w.tasks[t].ended
    requires forall k | k in w.logIds :: w.logIds[k] != w.tasks[t].id
    requires forall u | u in w.tasks && u != t :: !WillClose(w.tasks[u], w.tasks[t].id)
    ensures OwnersOpen(OnResume(w, t))
  {
    hide RowKey;
  }

  lemma OtherResumeKeepsOwners(w: World, t: nat)
    requires OwnersOpen(w) && !(t in w.tasks && w.tasks[t].Updating? && w.tasks[t].ended)
    ensures OwnersOpen(OnResume(w, t))
  {
    if t in w.tasks && w.tasks[t].Updating? {
      LogUpdateKeepsOwners(w, t);
    } else {
      hide PairKey;
    }
  }

  lemma LogUpdateKeepsOwners(w: World, t: nat)
    requires OwnersOpen(w) && t in w.tasks && w.tasks[t].Updating? && !w.tasks[t].ended
    ensures OwnersOpen(OnResume(w, t))
  {
    hide PairKey;
  }

  lemma CloserIsAlone(w: World, t: nat)
    requires Safe(w) && t in w.tasks && w.tasks[t].Updating? && w.tasks[t].ended
    ensures forall k | k in w.logIds :: w.logIds[k] != w.tasks[t].id
    ensures forall u | u in w.tasks && u != t :: !WillClose(w.tasks[u], w.tasks[t].id)
  {
    var id := w.tasks[t].id;
    assert Owns(w, ByTask(t), id);
    forall k | k in w.logIds ensures w.logIds[k] != id { assert !Owns(w, ByKey(k), id); }
    forall u | u in w.tasks && u != t ensures !WillClose(w.tasks[u], id) { assert !Owns(w, ByTask(u), id); }
  }

  lemma SignalKeepsOwned(w: World, s: Step, id: nat)
    requires s.Signal? && FreshIds(w) && Owned(w, id)
    ensures Owned(Do(w, s), id)
  {
    var v := Do(w, s);
    assert forall t | t in w.tasks :: t in v.tasks && v.tasks[t] == w.tasks[t];
    if k :| k in w.logIds && w.logIds[k] == id {
      if k !in v.logIds {
        assert v.tasks[w.nextTask] == Updating(id, HangUpStatus(w, s.op, k), true);
        assert WillClose(v.tasks[w.nextTask], id);
      }
    }
  }

  /** set_log_id on a slot that still holds another row's id. */
  predicate Overwrites(w: World, s: Step) {
    s.Resume? && s.task in w.tasks && w.tasks[s.task].Recorded? && w.tasks[s.task].key in w.logIds
  }

  lemma ResumeKeepsOwned(w: World, t: nat, id: nat)
    requires !Overwrites(w, Resume(t)) && Owned(w, id)
    requires id < |OnResume(w, t).log| && !OnResume(w, t).log[id].ended && id < |w.log|
    ensures Owned(OnResume(w, t), id)
  {
    var v := OnResume(w, t);
    assert forall u | u in w.tasks && u != t :: u in v.tasks && v.tasks[u] == w.tasks[u];
    if u :| u in w.tasks && WillClose(w.tasks[u], id) {
      if u == t && w.tasks[t].Recorded? {
        assert v.logIds[w.tasks[t].key] == id;
      }
    } else {
      var k :| k in w.logIds && w.logIds[k] == id;
      assert k in v.logIds && v.logIds[k] == id;
    }
  }

  lemma NewRowIsOwned(w: World, s: Step, id: nat)
    requires |w.log| <= id < |Do(w, s).log| && !Do(w, s).log[id].ended
    ensures Owned(Do(w, s), id)
  {
    assert s.Resume? && WillClose(Do(w, s).tasks[s.task], id);
  }

  lemma RowsOnlyClose(w: World, s: Step, id: nat)
    requires id < |w.log|
    ensures id < |Do(w, s).log| && (w.log[id].ended ==> Do(w, s).log[id].ended)
  {
  }

  lemma StepKeepsOpenOwned(w: World, s: Step)
    requires Safe(w) && !Overwrites(w, s) && OpenAreOwned(w)
    ensures OpenAreOwned(Do(w, s))
  {
    forall id | 0 <= id < |Do(w, s).log| && !Do(w, s).log[id].ended
      ensures Owned(Do(w, s), id)
    {
      hide Do, Owned, Overwrites;
      if id >= |w.log| {
        NewRowIsOwned(w, s, id);
      } else {
        RowsOnlyClose(w, s, id);
        if s.Signal? { SignalKeepsOwned(w, s, id); } else { ResumeStep(w, s); ResumeKeepsOwned(w, s.task, id); }
      }
    }
  }

  lemma ResumeStep(w: World, s: Step)
    requires s.Resume?
    ensures Do(w, s) == OnResume(w, s.task)
  {
  }

  lemma {:induction false} OwnersAreOpen(ss: seq<Step>)
    ensures OwnersOpen(Run(ss))
  {
    if ss == [] {
    } else {
      var w, s := Run(ss[..|ss| - 1]), ss[|ss| - 1];
      OwnersAreOpen(ss[..|ss| - 1]);
      RunIsSafe(ss[..|ss| - 1]);
      if s.Signal? { SignalKeepsOwners(w, s); } else { ResumeStep(w, s); ResumeKeepsOwners(w, s.task); }
    }
  }

  /** A row nobody owns is never closed. */
  lemma UnownedRowNeverCloses(w: World, s: Step, id: nat)
    requires Safe(w) && id < |w.log| && !w.log[id].ended && !Owned(w, id)
    ensures id < |Do(w, s).log| && !Do(w, s).log[id].ended && !Owned(Do(w, s), id)
  {
    RowsOnlyClose(w, s, id);
    if Owned(Do(w, s), id) {
      var v := Do(w, s);
      if k :| k in v.logIds && v.logIds[k] == id {
        assert Owns(v, ByKey(k), id);
        OwnershipMoves(w, s, ByKey(k), id);
      } else {
        var t :| t in v.tasks && WillClose(v.tasks[t], id);
        assert Owns(v, ByTask(t), id);
        OwnershipMoves(w, s, ByTask(t), id);
      }
    }
  }

  /** The row whose id is overwritten is open, and loses its only owner. */
  lemma OverwriteOrphans(w: World, s: Step)
    requires Safe(w) && OwnersOpen(w) && Overwrites(w, s)
    ensures var id := w.logIds[w.tasks[s.task].key];
      id < |Do(w, s).log| && !Do(w, s).log[id].ended && !Owned(Do(w, s), id)
  {
    var key := w.tasks[s.task].key;
    var id := w.logIds[key];
    assert Owns(w, ByKey(key), id);
    forall k | k in w.logIds && k != key ensures w.logIds[k] != id { assert !Owns(w, ByKey(k), id); }
    forall t | t in w.tasks ensures !WillClose(w.tasks[t], id) { assert !Owns(w, ByTask(t), id); }
  }

  ghost predicate NoOverwrite(ss: seq<Step>) {
    forall n | 0 <= n < |ss| :: !Overwrites(At(ss, n), ss[n])
  }

  lemma NoOverwriteStep(ss: seq<Step>)
    requires ss != []
    ensures var before := ss[..|ss| - 1];
      NoOverwrite(ss) <==> NoOverwrite(before) && !Overwrites(Run(before), ss[|ss| - 1])
  {
    hide Run, Overwrites;
    var before := ss[..|ss| - 1];
    assert forall n | 0 <= n < |before| :: before[..n] == ss[..n] && before[n] == ss[n];
    assert forall n | 0 <= n < |before| :: At(before, n) == At(ss, n);
    assert At(ss, |ss| - 1) == Run(before);
  }

  /** A run ends with an open row that nobody can close if and only if some set_log_id in it hit an
      occupied slot. */
  lemma {:induction false} OpenRowsOwnedIff(ss: seq<Step>)
    ensures OpenAreOwned(Run(ss)) <==> NoOverwrite(ss)
  {
    if ss == [] {
    } else {
      var before, s := ss[..|ss| - 1], ss[|ss| - 1];
      var w := Run(before);
      assert Run(ss) == Do(w, s);
      hide Run, Do, Owned, Overwrites, NoOverwrite, Safe, OwnersOpen;
      OpenRowsOwnedIff(before);
      NoOverwriteStep(ss);
      RunIsSafe(before);
      OwnersAreOpen(before);
      if Overwrites(w, s) {
        OverwriteOrphans(w, s);
      } else if OpenAreOwned(w) {
        StepKeepsOpenOwned(w, s);
      } else {
        var id: nat :| id < |w.log| && !w.log[id].ended && !Owned(w, id);
        UnownedRowNeverCloses(w, s, id);
      }
    }
  }

  /** So every open row has somebody to close it throughout a run if and only if no step of the run
      overwrites a log id. */
  lemma OpenRowsOwnedThroughoutIff(ss: seq<Step>)
    ensures (forall n | 0 <= n <= |ss| :: OpenAreOwned(At(ss, n))) <==> NoOverwrite(ss)
  {
    hide OpenAreOwned, Overwrites, Run;
    assert ss[..|ss|] == ss;
    assert At(ss, |ss|) == Run(ss);
    OpenRowsOwnedIff(ss);
    if NoOverwrite(ss) {
      forall n | 0 <= n <= |ss| ensures OpenAreOwned(At(ss, n)) {
        assert forall m | 0 <= m < n :: ss[..n][..m] == ss[..m];
        OpenRowsOwnedIff(ss[..n]);
      }
    }
  }

  /** An active pair has its row on file or on the way. */
  ghost predicate ActiveOnFile(w: World) {
    forall k | k in w.calls :: k in w.logIds || RecordPending(w, k)
  }

  lemma SignalKeepsActiveOnFile(w: World, s: Step)
    requires s.Signal? && FreshIds(w) && ActiveOnFile(w)
    ensures ActiveOnFile(Do(w, s))
  {
    hide PairKey, HangUpStatus;
    var v := Do(w, s);
    forall k | k in v.calls ensures k in v.logIds || RecordPending(v, k) {
      if k !in w.calls {
        assert RecordsFor(v.tasks[w.nextTask], k);
      } else if k !in w.logIds {
        var t :| t in w.tasks && RecordsFor(w.tasks[t], k);
        assert t in v.tasks && RecordsFor(v.tasks[t], k);
      }
    }
  }

  lemma ResumeKeepsActiveOnFile(w: World, r: nat)
    requires ActiveOnFile(w)
    ensures ActiveOnFile(OnResume(w, r))
  {
    var v := OnResume(w, r);
    forall k | k in v.calls ensures k in v.logIds || RecordPending(v, k) {
      if k !in w.logIds {
        var t :| t in w.tasks && RecordsFor(w.tasks[t], k);
        if t != r || w.tasks[t].Recording? {
          assert t in v.tasks && RecordsFor(v.tasks[t], k);
        }
      }
    }
  }

  lemma {:induction false} RunIsActiveOnFile(ss: seq<Step>)
    ensures ActiveOnFile(Run(ss))
  {
    if ss == [] {
    } else {
      RunIsActiveOnFile(ss[..|ss| - 1]);
      RunIsSafe(ss[..|ss| - 1]);
      var w, s := Run(ss[..|ss| - 1]), ss[|ss| - 1];
      if s.Signal? { SignalKeepsActiveOnFile(w, s); } else { ResumeStep(w, s); ResumeKeepsActiveOnFile(w, s.task); }
    }
  }

  /** set_log_id for a pair whose call is over. */
  predicate StoresLate(w: World, s: Step, k: Pair) {
    && s.Resume? && s.task in w.tasks && w.tasks[s.task].Recorded? && w.tasks[s.task].key == k
    && k !in w.calls
  }

  /** A hang-up of the pair, which clears its log id, or an offer that makes it ring again. */
  predicate Corrects(w: World, s: Step, k: Pair) {
    && s.Signal? && PairKey(s.sender, s.target) == k
    && (s.op == Reject || s.op == End || (s.op == Offer && s.online && k !in w.calls))
  }

  predicate IsStale(w: World, k: Pair) {
    k in w.logIds && k !in w.calls
  }

  lemma StaleStep(w: World, s: Step, k: Pair)
    ensures IsStale(Do(w, s), k) <==> StoresLate(w, s, k) || (IsStale(w, k) && !Corrects(w, s, k))
  {
  }

  /** Nothing in ss[from..to] corrects the pair. */
  ghost predicate Uncorrected(ss: seq<Step>, from: nat, to: nat, k: Pair)
    requires to <= |ss|
  {
    forall m | from <= m < to :: !Corrects(At(ss, m), ss[m], k)
  }

  ghost predicate StoredLate(ss: seq<Step>, n: nat, k: Pair)
    requires n <= |ss|
  {
    exists m: nat :: m < n && StoresLate(At(ss, m), ss[m], k) && Uncorrected(ss, m + 1, n, k)
  }

  lemma StoredLateStep(ss: seq<Step>, n: nat, k: Pair)
    requires n < |ss|
    ensures StoredLate(ss, n + 1, k)
       <==> StoresLate(At(ss, n), ss[n], k) || (StoredLate(ss, n, k) && !Corrects(At(ss, n), ss[n], k))
  {
    hide At, StoresLate, Corrects;
    if StoredLate(ss, n + 1, k) {
      var m: nat :| m < n + 1 && StoresLate(At(ss, m), ss[m], k) && Uncorrected(ss, m + 1, n + 1, k);
      if m < n { assert Uncorrected(ss, m + 1, n, k); }
    }
    if StoresLate(At(ss, n), ss[n], k) { assert Uncorrected(ss, n + 1, n + 1, k); }
    if StoredLate(ss, n, k) && !Corrects(At(ss, n), ss[n], k) {
      var m: nat :| m < n && StoresLate(At(ss, m), ss[m], k) && Uncorrected(ss, m + 1, n, k);
      assert Uncorrected(ss, m + 1, n + 1, k);
    }
  }

  /** A log id without a call is left exactly by a late set_log_id that nothing has corrected since. */
  lemma {:induction false} StaleIffStoredLate(ss: seq<Step>, n: nat, k: Pair)
    requires n <= |ss|
    ensures IsStale(At(ss, n), k) <==> StoredLate(ss, n, k)
  {
    hide Do, StoredLate, StoresLate, Corrects, IsStale;
    if n == 0 {
      NothingStaleAtStart(ss, k);
    } else {
      StaleIffStoredLate(ss, n - 1, k);
      AtStep(ss, n - 1);
      StaleStep(At(ss, n - 1), ss[n - 1], k);
      StoredLateStep(ss, n - 1, k);
    }
  }

  lemma NothingStaleAtStart(ss: seq<Step>, k: Pair)
    ensures !IsStale(At(ss, 0), k) && !StoredLate(ss, 0, k)
  {
  }

  /** Every late set_log_id of the run is followed by a correction. */
  ghost predicate LateIdsCorrected(ss: seq<Step>) {
    forall n, k | 0 <= n < |ss| && StoresLate(At(ss, n), ss[n], k) :: !Uncorrected(ss, n + 1, |ss|, k)
  }

  lemma CorrectedMeansNoneStored(ss: seq<Step>)
    ensures LateIdsCorrected(ss) <==> forall k :: !StoredLate(ss, |ss|, k)
  {
    hide At, StoresLate, Uncorrected;
    if LateIdsCorrected(ss) {
      forall k ensures !StoredLate(ss, |ss|, k) { }
    } else {
      var n, k :| 0 <= n < |ss| && StoresLate(At(ss, n), ss[n], k) && Uncorrected(ss, n + 1, |ss|, k);
      assert StoredLate(ss, |ss|, k);
    }
  }

  lemma NoStaleIdIff(ss: seq<Step>)
    ensures Run(ss).logIds.Keys <= Run(ss).calls.Keys <==> LateIdsCorrected(ss)
  {
    hide Run, StoredLate, LateIdsCorrected;
    assert ss[..|ss|] == ss;
    assert At(ss, |ss|) == Run(ss);
    CorrectedMeansNoneStored(ss);
    forall k ensures IsStale(Run(ss), k) <==> StoredLate(ss, |ss|, k) { StaleIffStoredLate(ss, |ss|, k); }
    if forall k :: !IsStale(Run(ss), k) {
      forall k | k in Run(ss).logIds ensures k in Run(ss).calls { assert !IsStale(Run(ss), k); }
    }
  }

  /** When all writes are done, an interleaved run satisfies the invariant of the atomic one if and
      only if every set_log_id in it found a free slot, and each one that came too late for its call was
      followed by a hang-up or a ringing offer of the pair. */
  lemma SettledInSyncIff(ss: seq<Step>)
    requires Run(ss).tasks == map[]
    ensures InSync(System(Run(ss).calls, map[], Run(ss).logIds, Run(ss).log))
       <==> NoOverwrite(ss) && LateIdsCorrected(ss)
  {
    hide Run, NoOverwrite, LateIdsCorrected, InSync, OpenAreOwned;
    OpenRowsOwnedIff(ss);
    OwnersAreOpen(ss);
    RunIsActiveOnFile(ss);
    NoStaleIdIff(ss);
    SettledIsInSync(Run(ss));
  }

  lemma SettledIsInSync(w: World)
    requires OwnersOpen(w) && ActiveOnFile(w) && w.tasks == map[]
    ensures InSync(System(w.calls, map[], w.logIds, w.log))
       <==> OpenAreOwned(w) && w.logIds.Keys <= w.calls.Keys
  {
    var s := System(w.calls, map[], w.logIds, w.log);
    assert forall k :: !RecordPending(w, k);
    if InSync(s) {
      forall id | 0 <= id < |w.log| && !w.log[id].ended ensures Owned(w, id) {
        assert RowKey(w.log[id]) in w.logIds;
      }
    }
    if OpenAreOwned(w) && w.logIds.Keys <= w.calls.Keys {
      assert w.calls.Keys == w.logIds.Keys;
      forall id | 0 <= id < |w.log| && !w.log[id].ended
        ensures RowKey(w.log[id]) in w.logIds && w.logIds[RowKey(w.log[id])] == id
      {
        assert Owned(w, id);
      }
    }
  }

  lemma TidyNeverOverwrites(w: World, s: Step)
    requires Tidy(w)
    ensures !Overwrites(w, s)
  {
    if Overwrites(w, s) {
      assert Settled(w, w.tasks[s.task].key);
      assert RecordsFor(w.tasks[s.task], w.tasks[s.task].key);
    }
  }

  /** In particular it does so if no hang-up overtook a row. */
  lemma TidyRunsSettleInSync(ss: seq<Step>)
    requires forall m | 0 <= m < |ss| :: !Overtakes(At(ss, m), ss[m])
    requires Run(ss).tasks == map[]
    ensures InSync(System(Run(ss).calls, map[], Run(ss).logIds, Run(ss).log))
  {
    hide Run, InSync, Overtakes, Overwrites;
    assert ss[..|ss|] == ss;
    forall n | 0 <= n < |ss| ensures !Overwrites(At(ss, n), ss[n]) {
      TidyUpTo(ss, n);
      TidyNeverOverwrites(At(ss, n), ss[n]);
    }
    TidyUpTo(ss, |ss|);
    forall k | k in Run(ss).logIds ensures k in Run(ss).calls { assert Settled(Run(ss), k); }
    OpenRowsOwnedIff(ss);
    OwnersAreOpen(ss);
    RunIsActiveOnFile(ss);
    SettledIsInSync(Run(ss));
  }

  // ---------------------------------------------------------------------------------------------
  // What an overtaking hang-up can cost

  lemma RunSnoc(ss: seq<Step>, s: Step)
    ensures Run(ss + [s]) == Do(Run(ss), s)
  {
  }

  /** An end of the callee that overtakes the row of the offer before it. */
  function CutOffer(a: Sub, b: Sub): seq<Step> {
    [Signal(Offer, a, b, Audio, true)] + [Signal(End, b, a, Audio, true)] + [Resume(0)] + [Resume(0)]
  }

  lemma CutOfferLeavesStaleId(a: Sub, b: Sub)
    requires a != b
    ensures var w := Run(CutOffer(a, b)); var k := PairKey(a, b);
      w.calls == map[] && w.logIds == map[k := 0] && w.tasks == map[] && w.nextTask == 1
      && w.log == [Row(a, b, Audio, None, false)]
  {
    PairKeyIdentifiesPair(a, b, b, a);
    var offer, end := Signal(Offer, a, b, Audio, true), Signal(End, b, a, Audio, true);
    RunSnoc([], offer);
    assert [] + [offer] == [offer];
    RunSnoc([offer], end);
    RunSnoc([offer] + [end], Resume(0));
    RunSnoc([offer] + [end] + [Resume(0)], Resume(0));
    var w2 := Run([offer] + [end]);
    assert w2.calls == map[] && w2.logIds == map[] && w2.tasks == map[0 := Recording(PairKey(a, b), a, b, Audio)];
  }

  /** Such a row is reachable: a second offer of the pair takes over the slot of the stale id. */
  lemma OrphanedRowReachable(a: Sub, b: Sub)
    requires a != b
    ensures var w := Run(CutOffer(a, b) + [Signal(Offer, a, b, Audio, true)] + [Resume(1)] + [Resume(1)]);
      w.tasks == map[] && |w.log| == 2 && !w.log[0].ended && !Owned(w, 0)
  {
    CutOfferLeavesStaleId(a, b);
    var cut, offer := CutOffer(a, b), Signal(Offer, a, b, Audio, true);
    RunSnoc(cut, offer);
    RunSnoc(cut + [offer], Resume(1));
    RunSnoc(cut + [offer] + [Resume(1)], Resume(1));
    var w := Run(cut + [offer] + [Resume(1)] + [Resume(1)]);
    assert w.tasks == map[];
  }

  // ---------------------------------------------------------------------------------------------
  // A late answer and the status of a closed row

  /** An answer's status write for the row is still under way. */
  ghost predicate LateAnswer(w: World, id: nat) {
    exists t :: t in w.tasks && w.tasks[t] == Updating(id, Accepted, false)
  }

  /** Nothing that is under way or may still be started writes another status into the row. */
  ghost predicate StatusFinal(w: World, id: nat, status: Status) {
    && id < |w.log| && w.log[id].status == Some(status)
    && !Owned(w, id)
    && forall t | t in w.tasks && w.tasks[t].Updating? && w.tasks[t].id == id :: w.tasks[t].status == status
  }

  lemma SignalKeepsStatusFinal(w: World, s: Step, id: nat, status: Status)
    requires s.Signal? && StatusFinal(w, id, status)
    ensures StatusFinal(Do(w, s), id, status)
  {
    hide PairKey, HangUpStatus;
  }

  lemma ResumeKeepsStatusFinal(w: World, t: nat, id: nat, status: Status)
    requires StatusFinal(w, id, status)
    ensures StatusFinal(OnResume(w, t), id, status)
  {
  }

  lemma StepKeepsStatusFinal(w: World, s: Step, id: nat, status: Status)
    requires StatusFinal(w, id, status)
    ensures StatusFinal(Do(w, s), id, status)
  {
    hide StatusFinal;
    if s.Signal? {
      SignalKeepsStatusFinal(w, s, id, status);
    } else {
      ResumeStep(w, s);
      ResumeKeepsStatusFinal(w, s.task, id, status);
    }
  }

  function Continue(w: World, ss: seq<Step>): World
    decreases |ss|
  {
    if ss == [] then w else Do(Continue(w, ss[..|ss| - 1]), ss[|ss| - 1])
  }

  lemma {:induction false} StatusFinalStays(w: World, ss: seq<Step>, id: nat, status: Status)
    requires StatusFinal(w, id, status)
    ensures StatusFinal(Continue(w, ss), id, status)
  {
    if ss == [] {
    } else {
      StatusFinalStays(w, ss[..|ss| - 1], id, status);
      StepKeepsStatusFinal(Continue(w, ss[..|ss| - 1]), ss[|ss| - 1], id, status);
    }
  }

  lemma ClosingOwnsAlone(w: World, t: nat)
    requires Safe(w) && t in w.tasks && w.tasks[t].Updating? && w.tasks[t].ended
    ensures var id := w.tasks[t].id;
      && id < |w.log|
      && !Owned(OnResume(w, t), id)
      && forall u | u in OnResume(w, t).tasks && w.tasks[u].Updating? && w.tasks[u].id == id ::
           w.tasks[u] == Updating(id, Accepted, false)
  {
    var id := w.tasks[t].id;
    assert Owns(w, ByTask(t), id);
    forall k | k in w.logIds ensures w.logIds[k] != id { assert !Owns(w, ByKey(k), id); }
    forall u | u in w.tasks && u != t ensures !WillClose(w.tasks[u], id) { assert !Owns(w, ByTask(u), id); }
  }

  /** The status that closes a row stays in it, whatever happens next, if and only if no answer's
      write is still under way or the status is "accepted" anyway. */
  lemma ClosingStatusStaysIff(w: World, t: nat)
    requires Safe(w) && t in w.tasks && w.tasks[t].Updating? && w.tasks[t].ended
    ensures var id, status := w.tasks[t].id, w.tasks[t].status;
      (forall ss :: id < |Continue(OnResume(w, t), ss).log|
                    && Continue(OnResume(w, t), ss).log[id].status == Some(status))
      <==> status == Accepted || !LateAnswer(w, id)
  {
    var id, status, v := w.tasks[t].id, w.tasks[t].status, OnResume(w, t);
    ClosingOwnsAlone(w, t);
    if status == Accepted || !LateAnswer(w, id) {
      assert StatusFinal(v, id, status);
      forall ss ensures StatusFinal(Continue(v, ss), id, status) { StatusFinalStays(v, ss, id, status); }
    } else {
      var u :| u in w.tasks && w.tasks[u] == Updating(id, Accepted, false);
      assert u in v.tasks;
      assert Continue(v, []) == v && [Resume(u)][..0] == [];
      assert Continue(v, [Resume(u)]) == OnResume(v, u);
      assert Continue(v, [Resume(u)]).log[id].status == Some(Accepted);
    }
  }

  /** So a rejected call can end up on file as accepted. */
  lemma RejectedCallFiledAsAccepted(a: Sub, b: Sub)
    requires a != b
    ensures var w := Run([Signal(Offer, a, b, Audio, true)] + [Resume(0)] + [Resume(0)]
                         + [Signal(Answer, b, a, Audio, true)]
                         + [Signal(Reject, b, a, Audio, true)] + [Resume(2)] + [Resume(1)]);
      w.tasks == map[] && w.log == [Row(a, b, Audio, Some(Accepted), true)]
  {
    PairKeyIdentifiesPair(a, b, b, a);
    var k := PairKey(a, b);
    var offer, answer, reject := Signal(Offer, a, b, Audio, true), Signal(Answer, b, a, Audio, true),
        Signal(Reject, b, a, Audio, true);
    var s1 := [offer];
    var s2 := s1 + [Resume(0)];
    var s3 := s2 + [Resume(0)];
    var s4 := s3 + [answer];
    var s5 := s4 + [reject];
    var s6 := s5 + [Resume(2)];
    RunSnoc([], offer);
    assert [] + [offer] == s1;
    RunSnoc(s1, Resume(0));
    RunSnoc(s2, Resume(0));
    assert Run(s3).logIds == map[k := 0] && Run(s3).tasks == map[] && Run(s3).calls == map[k := Ringing];
    AnsweredThenRejected(Run(s3), a, b, answer, reject);
    RunSnoc(s3, answer);
    RunSnoc(s4, reject);
    RunSnoc(s5, Resume(2));
    RunSnoc(s6, Resume(1));
  }

  lemma AnsweredThenRejected(w: World, a: Sub, b: Sub, answer: Step, reject: Step)
    requires PairKey(a, b) == PairKey(b, a)
    requires w.logIds == map[PairKey(a, b) := 0] && w.calls == map[PairKey(a, b) := Ringing]
    requires w.tasks == map[] && w.nextTask == 1 && w.log == [Row(a, b, Audio, None, false)]
    requires answer == Signal(Answer, b, a, Audio, true) && reject == Signal(Reject, b, a, Audio, true)
    ensures var v := Do(Do(Do(Do(w, answer), reject), Resume(2)), Resume(1));
      v.tasks == map[] && v.log == [Row(a, b, Audio, Some(Accepted), true)]
  {
  }

  // ---------------------------------------------------------------------------------------------
  // What the trace says about a row

  /** The last answer of the pair came after its last hang-up. */
  ghost predicate AnsweredSinceHangUp(events: seq<Event>, k: Pair) {
    exists j: nat :: j < |events| && events[j] == Accepting(k) && NoHangUpAfter(events, k, j)
  }

  ghost predicate NoHangUpAfter(events: seq<Event>, k: Pair, j: nat) {
    forall m | j < m < |events| :: events[m] != HungUp(k)
  }

  lemma AnsweredStep(events: seq<Event>, k: Pair)
    requires events != []
    ensures var front, last := events[..|events| - 1], events[|events| - 1];
      AnsweredSinceHangUp(events, k) <==>
        last == Accepting(k) || (last != HungUp(k) && AnsweredSinceHangUp(front, k))
  {
    var front, last := events[..|events| - 1], events[|events| - 1];
    if last == Accepting(k) {
      assert NoHangUpAfter(events, k, |events| - 1);
    } else if last != HungUp(k) {
      if AnsweredSinceHangUp(front, k) {
        var j: nat :| j < |front| && front[j] == Accepting(k) && NoHangUpAfter(front, k, j);
        assert forall m | j < m < |front| :: events[m] == front[m];
        assert NoHangUpAfter(events, k, j);
      }
      if AnsweredSinceHangUp(events, k) {
        var j: nat :| j < |events| && events[j] == Accepting(k) && NoHangUpAfter(events, k, j);
        assert forall m | j < m < |front| :: events[m] == front[m];
        assert NoHangUpAfter(front, k, j);
      }
    }
  }

  lemma {:induction false} TalkingMeansAnswered(events: seq<Event>, k: Pair)
    requires StageOf(events, k) != Broken
    ensures StageOf(events, k) == Talking <==> AnsweredSinceHangUp(events, k)
  {
    hide AnsweredSinceHangUp;
    if events == [] {
      NeverAnswered(k);
    } else {
      AnsweredStep(events, k);
      if StageOf(events[..|events| - 1], k) != Broken { TalkingMeansAnswered(events[..|events| - 1], k); }
    }
  }

  lemma NeverAnswered(k: Pair)
    ensures !AnsweredSinceHangUp([], k)
  {
  }

  /** A reject or an end of the pair k, which has row `id` on file. */
  ghost predicate HangsUp(ss: seq<Step>, n: nat, k: Pair, id: nat)
    requires n < |ss|
  {
    && ss[n].Signal? && (ss[n].op == Reject || ss[n].op == End) && k == PairKey(ss[n].sender, ss[n].target)
    && k in Run(ss[..n]).logIds && Run(ss[..n]).logIds[k] == id
  }

  /** Step m lets the write finish that step n started. */
  predicate Finishes(ss: seq<Step>, n: nat, m: nat)
    requires n < m < |ss|
  {
    ss[m] == Resume(Run(ss[..n]).nextTask) && forall i | n < i < m :: ss[i] != ss[m]
  }

  lemma WriteWaits(w: World, s: Step, t: nat)
    requires t in w.tasks && t < w.nextTask && s != Resume(t)
    ensures t in Do(w, s).tasks && Do(w, s).tasks[t] == w.tasks[t] && t < Do(w, s).nextTask
  {
    hide PairKey, Updated, HangUpStatus;
  }

  lemma PrefixStep(ss: seq<Step>, n: nat)
    requires n < |ss|
    ensures Run(ss[..n + 1]) == Do(Run(ss[..n]), ss[n])
  {
    hide Do;
    assert ss[..n + 1][..n] == ss[..n];
  }

  lemma {:induction false} WriteWaitsInRun(ss: seq<Step>, t: nat, n: nat, m: nat)
    requires n <= m <= |ss| && t in Run(ss[..n]).tasks && t < Run(ss[..n]).nextTask
    requires forall i | n <= i < m :: ss[i] != Resume(t)
    ensures t in Run(ss[..m]).tasks && Run(ss[..m]).tasks[t] == Run(ss[..n]).tasks[t] && t < Run(ss[..m]).nextTask
    decreases m - n
  {
    if m == n {
    } else {
      WriteWaitsInRun(ss, t, n, m - 1);
      hide Do;
      assert ss[..m][..m - 1] == ss[..m - 1];
      WriteWaits(Run(ss[..m - 1]), ss[m - 1], t);
    }
  }

  lemma HangUpSpawns(w: World, s: Step, k: Pair)
    requires s.Signal? && (s.op == Reject || s.op == End) && k == PairKey(s.sender, s.target) && k in w.logIds
    ensures var v := Do(w, s);
      && w.nextTask in v.tasks && w.nextTask < v.nextTask
      && v.tasks[w.nextTask] == Updating(w.logIds[k],
           if s.op == Reject then Rejected else if StageNow(w, k) == Talking then Accepted else Missed, true)
  {
  }

  /** At any interleaving, the write that a hang-up starts closes the row that the pair has on file, as
      rejected by a reject, otherwise as accepted if and only if the call was answered, else as missed. */
  lemma HangUpDecidesStatus(ss: seq<Step>, n: nat, m: nat, k: Pair, id: nat)
    requires n < m < |ss| && HangsUp(ss, n, k, id) && Finishes(ss, n, m)
    ensures var log := Run(ss[..m + 1]).log;
      && id < |log| && log[id].ended
      && log[id].status == Some(if ss[n].op == Reject then Rejected
                                else if AnsweredSinceHangUp(Run(ss[..n]).events, k) then Accepted
                                else Missed)
  {
    hide Run, Do, StageOf, AnsweredSinceHangUp, Safe;
    var w, t := Run(ss[..n]), Run(ss[..n]).nextTask;
    RunKeepsStage(ss[..n], k);
    TalkingMeansAnswered(w.events, k);
    HangUpSpawns(w, ss[n], k);
    PrefixStep(ss, n);
    PrefixStep(ss, m);
    WriteWaitsInRun(ss, t, n + 1, m);
    RunIsSafe(ss[..m]);
    ClosingWrites(Run(ss[..m]), t);
  }

  lemma ClosingWrites(w: World, t: nat)
    requires Safe(w) && t in w.tasks && w.tasks[t].Updating? && w.tasks[t].ended
    ensures var id := w.tasks[t].id;
      && id < |w.log| && id < |Do(w, Resume(t)).log|
      && Do(w, Resume(t)).log[id].ended && Do(w, Resume(t)).log[id].status == Some(w.tasks[t].status)
  {
    assert Owns(w, ByTask(t), w.tasks[t].id);
  }

  /** Some offer of the run called from the one to the other. */
  predicate Called(ss: seq<Step>, caller: Sub, callee: Sub, kind: Kind) {
    exists i :: 0 <= i < |ss| && IsCall(ss[i], caller, callee, kind)
  }

  predicate IsCall(s: Step, caller: Sub, callee: Sub, kind: Kind) {
    s.Signal? && s.op == Offer && s.sender == caller && s.target == callee && s.kind == kind
  }

  /** Rows, and rows still being written, are about calls that were made. */
  ghost predicate FromCalls(w: World, ss: seq<Step>) {
    && (forall id | 0 <= id < |w.log| :: Called(ss, w.log[id].caller, w.log[id].callee, w.log[id].kind))
    && (forall t | t in w.tasks && w.tasks[t].Recording? ::
          Called(ss, w.tasks[t].caller, w.tasks[t].callee, w.tasks[t].kind))
    && (forall t | t in w.tasks && w.tasks[t].RecordingMissed? ::
          Called(ss, w.tasks[t].caller, w.tasks[t].callee, w.tasks[t].kind))
  }

  lemma OneMoreStep(ss: seq<Step>, s: Step)
    ensures forall a, b, kind | Called(ss, a, b, kind) :: Called(ss + [s], a, b, kind)
    ensures s.Signal? && s.op == Offer ==> Called(ss + [s], s.sender, s.target, s.kind)
  {
    forall a, b, kind | Called(ss, a, b, kind) ensures Called(ss + [s], a, b, kind) {
      var i :| 0 <= i < |ss| && IsCall(ss[i], a, b, kind);
      assert (ss + [s])[i] == ss[i];
    }
    assert (ss + [s])[|ss|] == s;
  }

  lemma StepKeepsFromCalls(w: World, ss: seq<Step>, s: Step)
    requires FromCalls(w, ss)
    ensures FromCalls(Do(w, s), ss + [s])
  {
    OneMoreStep(ss, s);
    hide Called, PairKey, HangUpStatus;
  }

  /** Every row says who called whom and how, as some offer of the run did. */
  lemma {:induction false} RowsAreCalls(ss: seq<Step>, id: nat)
    ensures FromCalls(Run(ss), ss)
    ensures id < |Run(ss).log| ==> Called(ss, Run(ss).log[id].caller, Run(ss).log[id].callee, Run(ss).log[id].kind)
  {
    if ss == [] {
    } else {
      RowsAreCalls(ss[..|ss| - 1], id);
      StepKeepsFromCalls(Run(ss[..|ss| - 1]), ss[..|ss| - 1], ss[|ss| - 1]);
      assert ss == ss[..|ss| - 1] + [ss[|ss| - 1]];
    }
  }

  // ---------------------------------------------------------------------------------------------
  // Every offer is written once

  function Offers(ss: seq<Step>): nat {
    if ss == [] then 0
    else Offers(ss[..|ss| - 1]) + (if ss[|ss| - 1].Signal? && ss[|ss| - 1].op == Offer then 1 else 0)
  }

  /** The rows still to be written. */
  function Unwritten(w: World): set<nat> {
    set t | t in w.tasks && (w.tasks[t].Recording? || w.tasks[t].RecordingMissed?)
  }

  lemma SignalKeepsUnwritten(w: World, s: Step)
    requires s.Signal? && forall t | t in w.tasks :: t < w.nextTask
    ensures Do(w, s).log == w.log
    ensures Unwritten(Do(w, s)) == if s.op == Offer then Unwritten(w) + {w.nextTask} else Unwritten(w)
  {
    hide PairKey, HangUpStatus;
  }

  lemma ResumeWrites(w: World, t: nat)
    ensures var v := OnResume(w, t);
      if t in Unwritten(w) then |v.log| == |w.log| + 1 && Unwritten(v) == Unwritten(w) - {t}
      else |v.log| == |w.log| && Unwritten(v) == Unwritten(w)
  {
  }

  /** Rows written and rows still to be written are together as many as offers were made, at any
      interleaving: no call is lost and none is written twice. */
  lemma {:induction false} EveryOfferIsWrittenOnce(ss: seq<Step>)
    ensures |Run(ss).log| + |Unwritten(Run(ss))| == Offers(ss)
  {
    if ss == [] {
    } else {
      var w, s := Run(ss[..|ss| - 1]), ss[|ss| - 1];
      EveryOfferIsWrittenOnce(ss[..|ss| - 1]);
      RunIsSafe(ss[..|ss| - 1]);
      hide Unwritten, Owns;
      match s
      case Signal(_, _, _, _, _) =>
        SignalKeepsUnwritten(w, s);
        NextTaskIsNew(w);
      case Resume(t) => ResumeWrites(w, t);
    }
  }

  lemma NextTaskIsNew(w: World)
    requires Safe(w)
    ensures w.nextTask !in Unwritten(w)
  {
  }
}

/** The minimum-interval throttle that the typing relay and the ICE relay both carry
    (app/ws/manager.py, app/ws/calls.py), with its sweep over 10 000 keys. */
module Throttle {

  const SWEEP_ABOVE := 10_000

  predicate TooSoon<K>(slots: map<K, real>, key: K, now: real, minInterval: real) {
    key in slots && now - slots[key] < minInterval
  }

  /** Keep the slots that could still refuse something. */
  function Sweep<K>(slots: map<K, real>, now: real, minInterval: real): map<K, real> {
    map k | k in slots && now - slots[k] < minInterval :: slots[k]
  }

  function Next<K>(slots: map<K, real>, key: K, now: real, minInterval: real): map<K, real> {
    if TooSoon(slots, key, now, minInterval) then slots
    else
      var taken := slots[key := now];
      if |taken| > SWEEP_ABOVE then Sweep(taken, now, minInterval) else taken
  }

  /** The reference: a table that is never swept. */
  function NextUnswept<K>(slots: map<K, real>, key: K, now: real, minInterval: real): map<K, real> {
    if TooSoon(slots, key, now, minInterval) then slots else slots[key := now]
  }

  datatype Call<K> = Call(key: K, now: real)

  ghost predicate Ordered<K>(calls: seq<Call<K>>, from: real) {
    calls != [] ==> from <= calls[0].now && Ordered(calls[1..], calls[0].now)
  }

  /** The answers a run of calls gets. */
  function Answers<K>(slots: map<K, real>, calls: seq<Call<K>>, minInterval: real): (answers: seq<bool>)
    ensures |answers| == |calls|
    decreases calls
  {
    if calls == [] then []
    else
      [!TooSoon(slots, calls[0].key, calls[0].now, minInterval)]
      + Answers(Next(slots, calls[0].key, calls[0].now, minInterval), calls[1..], minInterval)
  }

  function AnswersUnswept<K>(slots: map<K, real>, calls: seq<Call<K>>, minInterval: real): (answers: seq<bool>)
    ensures |answers| == |calls|
    decreases calls
  {
    if calls == [] then []
    else
      [!TooSoon(slots, calls[0].key, calls[0].now, minInterval)]
      + AnswersUnswept(NextUnswept(slots, calls[0].key, calls[0].now, minInterval), calls[1..], minInterval)
  }

  /** The swept table is the unswept one minus slots too old to matter from `now` on. */
  ghost predicate Forgets<K(!new)>(swept: map<K, real>, full: map<K, real>, now: real, minInterval: real) {
    && (forall k | k in swept :: k in full && full[k] == swept[k])
    && (forall k | k in full && k !in swept :: now - full[k] >= minInterval)
  }

  lemma NextKeepsForgets<K(!new)>(swept: map<K, real>, full: map<K, real>, from: real, c: Call<K>, minInterval: real)
    requires Forgets(swept, full, from, minInterval) && from <= c.now
    ensures TooSoon(swept, c.key, c.now, minInterval) == TooSoon(full, c.key, c.now, minInterval)
    ensures Forgets(Next(swept, c.key, c.now, minInterval), NextUnswept(full, c.key, c.now, minInterval),
                    c.now, minInterval)
  {
  }

  /** Sweeping never changes an answer, over any run. */
  lemma {:induction false} SweepChangesNoAnswer<K(!new)>(
      swept: map<K, real>, full: map<K, real>, from: real, calls: seq<Call<K>>, minInterval: real)
    requires Forgets(swept, full, from, minInterval) && Ordered(calls, from)
    ensures Answers(swept, calls, minInterval) == AnswersUnswept(full, calls, minInterval)
    decreases calls
  {
    if calls == [] {
    } else {
      var c := calls[0];
      NextKeepsForgets(swept, full, from, c, minInterval);
      SweepChangesNoAnswer(Next(swept, c.key, c.now, minInterval), NextUnswept(full, c.key, c.now, minInterval),
                           c.now, calls[1..], minInterval);
    }
  }

  /** An allowed call of a key leaves at least the interval since its latest allowed one. */
  lemma {:induction false} SlotDelaysKey<K(!new)>(
      slots: map<K, real>, key: K, from: real, calls: seq<Call<K>>, minInterval: real, j: nat)
    requires Ordered(calls, from) && key in slots && slots[key] <= from
    requires j < |calls| && calls[j].key == key && AnswersUnswept(slots, calls, minInterval)[j]
    ensures calls[j].now - slots[key] >= minInterval
    decreases calls
  {
    if j == 0 {
    } else {
      var c := calls[0];
      var next := NextUnswept(slots, c.key, c.now, minInterval);
      SlotDelaysKey(next, key, c.now, calls[1..], minInterval, j - 1);
    }
  }

  /** Two allowed calls of one key are at least the interval apart, sweep included. */
  lemma {:induction false} AllowedCallsAreSpaced<K(!new)>(
      swept: map<K, real>, full: map<K, real>, from: real, calls: seq<Call<K>>, minInterval: real, i: nat, j: nat)
    requires Forgets(swept, full, from, minInterval) && Ordered(calls, from)
    requires i < j < |calls| && calls[i].key == calls[j].key
    requires Answers(swept, calls, minInterval)[i] && Answers(swept, calls, minInterval)[j]
    ensures calls[j].now - calls[i].now >= minInterval
    decreases calls
  {
    SweepChangesNoAnswer(swept, full, from, calls, minInterval);
    var c := calls[0];
    NextKeepsForgets(swept, full, from, c, minInterval);
    var full' := NextUnswept(full, c.key, c.now, minInterval);
    if i == 0 {
      SlotDelaysKey(full', c.key, c.now, calls[1..], minInterval, j - 1);
    } else {
      AllowedCallsAreSpaced(Next(swept, c.key, c.now, minInterval), full', c.now, calls[1..], minInterval, i - 1,
                            j - 1);
    }
  }

  /** A call of the same key was allowed less than the interval before call j. */
  ghost predicate AllowedRecently<K(!new)>(slots: map<K, real>, calls: seq<Call<K>>, minInterval: real, j: nat)
    requires j < |calls|
  {
    exists i: nat :: i < j && calls[i].key == calls[j].key && AnswersUnswept(slots, calls, minInterval)[i]
                     && calls[j].now - calls[i].now < minInterval
  }

  lemma AllowedRecentlyShifts<K(!new)>(slots: map<K, real>, calls: seq<Call<K>>, minInterval: real, j: nat)
    requires 1 <= j < |calls|
    ensures var c := calls[0];
      AllowedRecently(slots, calls, minInterval, j) <==>
        || (c.key == calls[j].key && !TooSoon(slots, c.key, c.now, minInterval) && calls[j].now - c.now < minInterval)
        || AllowedRecently(NextUnswept(slots, c.key, c.now, minInterval), calls[1..], minInterval, j - 1)
  {
    var c := calls[0];
    var next := NextUnswept(slots, c.key, c.now, minInterval);
    var all, rest := AnswersUnswept(slots, calls, minInterval), AnswersUnswept(next, calls[1..], minInterval);
    assert all == [!TooSoon(slots, c.key, c.now, minInterval)] + rest;
    hide AnswersUnswept, TooSoon, NextUnswept;
    if i: nat :| i < j && calls[i].key == calls[j].key && all[i] && calls[j].now - calls[i].now < minInterval {
      if i > 0 { assert calls[1..][i - 1].key == calls[j].key && rest[i - 1]; }
    }
    if i: nat :| i < j - 1 && calls[1..][i].key == calls[j].key && rest[i]
                 && calls[j].now - calls[1..][i].now < minInterval {
      assert calls[i + 1].key == calls[j].key && all[i + 1];
    }
  }

  lemma {:induction false} RefusedUnlessOld<K(!new)>(
      slots: map<K, real>, from: real, calls: seq<Call<K>>, minInterval: real, j: nat)
    requires Ordered(calls, from) && j < |calls| && forall k | k in slots :: slots[k] <= from
    ensures !AnswersUnswept(slots, calls, minInterval)[j] <==>
              TooSoon(slots, calls[j].key, calls[j].now, minInterval) || AllowedRecently(slots, calls, minInterval, j)
    decreases j
  {
    if j == 0 {
    } else {
      var c := calls[0];
      RefusedUnlessOld(NextUnswept(slots, c.key, c.now, minInterval), c.now, calls[1..], minInterval, j - 1);
      AllowedRecentlyShifts(slots, calls, minInterval, j);
      LaterIsLater(calls, from, j);
    }
  }

  lemma {:induction false} LaterIsLater<K>(calls: seq<Call<K>>, from: real, j: nat)
    requires Ordered(calls, from) && j < |calls|
    ensures from <= calls[0].now <= calls[j].now
    decreases j
  {
    if j == 0 {
    } else {
      LaterIsLater(calls[1..], calls[0].now, j - 1);
    }
  }

  /** From an empty table, swept or not, a call is refused if and only if a call of its key was allowed
      less than the interval before. */
  lemma RefusedIffAllowedRecently<K(!new)>(from: real, calls: seq<Call<K>>, minInterval: real, j: nat)
    requires Ordered(calls, from) && j < |calls|
    ensures !Answers(map[], calls, minInterval)[j] <==>
              exists i: nat :: i < j && calls[i].key == calls[j].key && Answers(map[], calls, minInterval)[i]
                               && calls[j].now - calls[i].now < minInterval
  {
    SweepChangesNoAnswer(map[], map[], from, calls, minInterval);
    RefusedUnlessOld(map[], from, calls, minInterval, j);
  }

  /** The interval must stay fixed: the sweep of one call can forget a slot with which a later call
      under a longer interval would have been refused. */
  lemma SweepMattersForLongerInterval<K(!new)>(slots: map<K, real>, key: K, now: real, later: real,
                                               short: real, long: real)
    requires key in slots && now <= later
    ensures TooSoon(slots, key, later, long) != TooSoon(Sweep(slots, now, short), key, later, long)
       <==> now - slots[key] >= short && later - slots[key] < long
  {
  }
}

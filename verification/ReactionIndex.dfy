/** Reactions as the server stores them, as it aggregates them (app/messages/service.py), and as the
    browser keeps them up to date from events (static/app.js). */
module ReactionIndex {
  import opened Prelude
  import opened Messages

  type Triples = set<(nat, Sub, string)>

  /** Who put the emoji on the message. */
  function Users(reactions: Triples, id: nat, emoji: string): set<Sub> {
    set r | r in reactions && r.0 == id && r.2 == emoji :: r.1
  }

  function Count(reactions: Triples, id: nat, emoji: string): nat {
    |Users(reactions, id, emoji)|
  }

  function Own(reactions: Triples, id: nat, me: Sub): set<string> {
    set r | r in reactions && r.0 == id && r.1 == me :: r.2
  }

  // ---------------------------------------------------------------------------------------------
  // The server's aggregation

  datatype Aggregate = Aggregate(counts: map<string, nat>, mine: set<string>)

  /** The emojis in use with their numbers of users, and the viewer's own. */
  ghost predicate Aggregates(a: Aggregate, reactions: Triples, id: nat, viewer: Sub) {
    && (forall e :: e in a.counts <==> Count(reactions, id, e) > 0)
    && (forall e | e in a.counts :: a.counts[e] == Count(reactions, id, e))
    && a.mine == Own(reactions, id, viewer)
  }

  lemma AddTriple(reactions: Triples, id: nat, u: Sub, emoji: string)
    ensures var next := reactions + {(id, u, emoji)};
      && Users(next, id, emoji) == Users(reactions, id, emoji) + {u}
      && (forall j, e | j != id || e != emoji :: Users(next, j, e) == Users(reactions, j, e))
      && Own(next, id, u) == Own(reactions, id, u) + {emoji}
      && (forall j, v | j != id || v != u :: Own(next, j, v) == Own(reactions, j, v))
  {
    var next := reactions + {(id, u, emoji)};
    forall j, e | j != id || e != emoji ensures Users(next, j, e) == Users(reactions, j, e) {
      assert forall v :: v in Users(next, j, e) <==> (j, v, e) in next;
    }
    forall j, v | j != id || v != u ensures Own(next, j, v) == Own(reactions, j, v) {
      assert forall e :: e in Own(next, j, v) <==> (j, v, e) in next;
    }
    assert forall v :: v in Users(next, id, emoji) <==> (id, v, emoji) in next;
    assert forall v :: v in Users(reactions, id, emoji) <==> (id, v, emoji) in reactions;
    assert forall e :: e in Own(next, id, u) <==> (id, u, e) in next;
    assert forall e :: e in Own(reactions, id, u) <==> (id, u, e) in reactions;
  }

  lemma RemoveTriple(reactions: Triples, id: nat, u: Sub, emoji: string)
    ensures var next := reactions - {(id, u, emoji)};
      && Users(next, id, emoji) == Users(reactions, id, emoji) - {u}
      && (forall j, e | j != id || e != emoji :: Users(next, j, e) == Users(reactions, j, e))
      && Own(next, id, u) == Own(reactions, id, u) - {emoji}
      && (forall j, v | j != id || v != u :: Own(next, j, v) == Own(reactions, j, v))
  {
    var next := reactions - {(id, u, emoji)};
    forall j, e | j != id || e != emoji ensures Users(next, j, e) == Users(reactions, j, e) {
      assert forall v :: v in Users(reactions, j, e) <==> (j, v, e) in next;
    }
    forall j, v | j != id || v != u ensures Own(next, j, v) == Own(reactions, j, v) {
      assert forall e :: e in Own(reactions, j, v) <==> (j, v, e) in next;
    }
    assert forall v :: v in Users(next, id, emoji) <==> (id, v, emoji) in next;
    assert forall v :: v in Users(reactions, id, emoji) <==> (id, v, emoji) in reactions;
    assert forall e :: e in Own(next, id, u) <==> (id, u, e) in next;
    assert forall e :: e in Own(reactions, id, u) <==> (id, u, e) in reactions;
  }

  function Nested(counts: map<nat, map<string, nat>>, id: nat): map<string, nat> {
    if id in counts then counts[id] else map[]
  }

  function Mine(mine: map<nat, set<string>>, id: nat): set<string> {
    if id in mine then mine[id] else {}
  }

  /** reactions_for: one pass over the rows fills the two dictionaries. */
  method ReactionsFor(reactions: Triples, ids: set<nat>, viewer: Sub) returns (result: map<nat, Aggregate>)
    ensures result.Keys == ids
    ensures forall id | id in ids :: Aggregates(result[id], reactions, id, viewer)
  {
    var counts: map<nat, map<string, nat>> := map[];
    var mine: map<nat, set<string>> := map[];
    var todo := set r | r in reactions && r.0 in ids;
    ghost var done: Triples := {};
    while todo != {}
      invariant todo !! done && todo + done == set r | r in reactions && r.0 in ids
      invariant forall id :: Aggregates(Aggregate(Nested(counts, id), Mine(mine, id)), done, id, viewer)
      decreases todo
    {
      var r :| r in todo;
      counts, mine := AddRow(counts, mine, done, r, viewer);
      todo := todo - {r};
      done := done + {r};
    }
    result := map id | id in ids :: Aggregate(Nested(counts, id), Mine(mine, id));
    forall id | id in ids ensures Aggregates(result[id], reactions, id, viewer) {
      RowsOfMessage(reactions, done, ids, id, viewer);
    }
  }

  lemma RowsOfMessage(reactions: Triples, rows: Triples, ids: set<nat>, id: nat, viewer: Sub)
    requires id in ids && rows == set r | r in reactions && r.0 in ids
    ensures forall e :: Users(rows, id, e) == Users(reactions, id, e)
    ensures Own(rows, id, viewer) == Own(reactions, id, viewer)
  {
    forall e ensures Users(rows, id, e) == Users(reactions, id, e) {
      assert forall v :: v in Users(rows, id, e) <==> (id, v, e) in rows;
      assert forall v :: v in Users(reactions, id, e) <==> (id, v, e) in reactions;
    }
    assert forall e :: e in Own(rows, id, viewer) <==> (id, viewer, e) in rows;
    assert forall e :: e in Own(reactions, id, viewer) <==> (id, viewer, e) in reactions;
  }

  method AddRow(counts: map<nat, map<string, nat>>, mine: map<nat, set<string>>, ghost done: Triples,
                r: (nat, Sub, string), viewer: Sub)
    returns (counts': map<nat, map<string, nat>>, mine': map<nat, set<string>>)
    requires r !in done
    requires forall id :: Aggregates(Aggregate(Nested(counts, id), Mine(mine, id)), done, id, viewer)
    ensures forall id :: Aggregates(Aggregate(Nested(counts', id), Mine(mine', id)), done + {r}, id, viewer)
  {
    var (id, u, emoji) := r;
    var row := Nested(counts, id);
    var n := if emoji in row then row[emoji] else 0;
    counts' := counts[id := row[emoji := 1 + n]];
    mine' := if u == viewer then mine[id := Mine(mine, id) + {emoji}] else mine;
    forall j ensures Aggregates(Aggregate(Nested(counts', j), Mine(mine', j)), done + {r}, j, viewer) {
      assert Aggregates(Aggregate(Nested(counts, j), Mine(mine, j)), done, j, viewer);
      OneMoreRow(Aggregate(Nested(counts, j), Mine(mine, j)), done, r, j, viewer);
    }
  }

  /** What one more row does to the aggregate of a message. */
  lemma OneMoreRow(a: Aggregate, done: Triples, r: (nat, Sub, string), j: nat, viewer: Sub)
    requires r !in done && Aggregates(a, done, j, viewer)
    ensures r.0 != j ==> Aggregates(a, done + {r}, j, viewer)
    ensures r.0 == j ==>
              Aggregates(Aggregate(a.counts[r.2 := 1 + if r.2 in a.counts then a.counts[r.2] else 0],
                                   if r.1 == viewer then a.mine + {r.2} else a.mine),
                         done + {r}, j, viewer)
  {
    hide Aggregates;
    if r.0 == j { OneRowHere(a, done, r, viewer); } else { OneRowElsewhere(a, done, r, j, viewer); }
  }

  lemma OneRowElsewhere(a: Aggregate, done: Triples, r: (nat, Sub, string), j: nat, viewer: Sub)
    requires r.0 != j && Aggregates(a, done, j, viewer)
    ensures Aggregates(a, done + {r}, j, viewer)
  {
    hide Users, Own;
    AddTriple(done, r.0, r.1, r.2);
    assert r == (r.0, r.1, r.2);
    assert forall e :: Count(done + {r}, j, e) == Count(done, j, e);
  }

  lemma OneRowHere(a: Aggregate, done: Triples, r: (nat, Sub, string), viewer: Sub)
    requires r !in done && Aggregates(a, done, r.0, viewer)
    ensures Aggregates(Aggregate(a.counts[r.2 := 1 + if r.2 in a.counts then a.counts[r.2] else 0],
                                 if r.1 == viewer then a.mine + {r.2} else a.mine),
                       done + {r}, r.0, viewer)
  {
    hide Users, Own;
    AddTriple(done, r.0, r.1, r.2);
    NotUser(done, r);
    assert r == (r.0, r.1, r.2);
    assert Count(done + {r}, r.0, r.2) == Count(done, r.0, r.2) + 1;
    assert forall e | e != r.2 :: Count(done + {r}, r.0, e) == Count(done, r.0, e);
    hide Count;
  }

  lemma NotUser(done: Triples, r: (nat, Sub, string))
    requires r !in done
    ensures r.1 !in Users(done, r.0, r.2)
  {
  }

  // ---------------------------------------------------------------------------------------------
  // The browser's index

  datatype Chip = Chip(emoji: string, count: nat)

  /** A message of the open conversation as the browser holds it. */
  datatype ClientMessage = ClientMessage(id: nat, chips: seq<Chip>, mine: seq<string>)

  /** What the server broadcasts after a reaction call; `count` is the emoji's count after it. */
  datatype Event = Event(messageId: nat, emoji: string, added: bool, count: nat, bySub: Sub)

  function React(reactions: Triples, id: nat, u: Sub, emoji: string, add: bool): (Triples, Event) {
    var next := ApplyReaction(reactions, id, u, emoji, add);
    (next, Event(id, emoji, add, Count(next, id, emoji), u))
  }

  /** The index of the first chip with the emoji, or the length if there is none. */
  function ChipIndex(chips: seq<Chip>, emoji: string): (i: nat)
    ensures i <= |chips|
    ensures i < |chips| ==> chips[i].emoji == emoji
    ensures forall k | 0 <= k < i :: chips[k].emoji != emoji
  {
    if chips == [] || chips[0].emoji == emoji then 0 else 1 + ChipIndex(chips[1..], emoji)
  }

  function Without(mine: seq<string>, emoji: string): seq<string> {
    if mine == [] then [] else (if mine[0] == emoji then [] else [mine[0]]) + Without(mine[1..], emoji)
  }

  /** What one event does to the message it is about. */
  function Absorb(m: ClientMessage, e: Event, me: Sub): ClientMessage {
    var i := ChipIndex(m.chips, e.emoji);
    var known := i < |m.chips|;
    if e.added then
      m.(chips := if known then m.chips[i := Chip(e.emoji, e.count)] else m.chips + [Chip(e.emoji, e.count)],
         mine := if e.bySub == me && e.emoji !in m.mine then m.mine + [e.emoji] else m.mine)
    else if known then
      m.(chips := if e.count > 0 then m.chips[i := Chip(e.emoji, e.count)] else m.chips[..i] + m.chips[i + 1..],
         mine := if e.bySub == me then Without(m.mine, e.emoji) else m.mine)
    else m
  }

  /** The message shows exactly what the aggregation would: each emoji in use once with its count, and
      the viewer's own. */
  ghost predicate InSync(m: ClientMessage, reactions: Triples, me: Sub) {
    && ChipsShow(m.chips, reactions, m.id)
    && (forall e :: e in m.mine <==> e in Own(reactions, m.id, me))
  }

  ghost predicate ChipsShow(chips: seq<Chip>, reactions: Triples, id: nat) {
    && Distinct(chips)
    && (forall c | c in chips :: c.count == Count(reactions, id, c.emoji) > 0)
    && (forall e | Count(reactions, id, e) > 0 :: ChipIndex(chips, e) < |chips|)
  }

  ghost predicate Distinct(chips: seq<Chip>) {
    forall i, j | 0 <= i < j < |chips| :: chips[i].emoji != chips[j].emoji
  }

  /** From `reactions` to `next` only the number for `emoji` may change on message `id`. */
  ghost predicate OnlyChanges(reactions: Triples, next: Triples, id: nat, emoji: string) {
    forall e | e != emoji :: Count(next, id, e) == Count(reactions, id, e)
  }

  lemma SetChip(chips: seq<Chip>, reactions: Triples, next: Triples, id: nat, emoji: string)
    requires ChipsShow(chips, reactions, id) && OnlyChanges(reactions, next, id, emoji)
    requires Count(next, id, emoji) > 0 && ChipIndex(chips, emoji) < |chips|
    ensures ChipsShow(chips[ChipIndex(chips, emoji) := Chip(emoji, Count(next, id, emoji))], next, id)
  {
    hide Count, ChipIndex;
    var i := ChipIndex(chips, emoji);
    var chips' := chips[i := Chip(emoji, Count(next, id, emoji))];
    forall e | Count(next, id, e) > 0 ensures ChipIndex(chips', e) < |chips'| {
      var k := if e == emoji then i else ChipIndex(chips, e);
      assert chips'[k].emoji == e;
    }
    SetKeepsDistinct(chips, i, Chip(emoji, Count(next, id, emoji)));
  }

  lemma SetKeepsDistinct(chips: seq<Chip>, i: nat, c: Chip)
    requires Distinct(chips) && i < |chips| && c.emoji == chips[i].emoji
    ensures Distinct(chips[i := c])
    ensures forall d | d in chips[i := c] :: d == c || (d in chips && d.emoji != c.emoji)
  {
    forall d | d in chips[i := c] ensures d == c || (d in chips && d.emoji != c.emoji) {
      var k :| 0 <= k < |chips| && chips[i := c][k] == d;
      assert k != i ==> chips[k] == d && chips[k].emoji != chips[i].emoji;
    }
  }

  lemma AppendChip(chips: seq<Chip>, reactions: Triples, next: Triples, id: nat, emoji: string)
    requires ChipsShow(chips, reactions, id) && OnlyChanges(reactions, next, id, emoji)
    requires Count(next, id, emoji) > 0 && ChipIndex(chips, emoji) == |chips|
    ensures ChipsShow(chips + [Chip(emoji, Count(next, id, emoji))], next, id)
  {
    hide Count, ChipIndex;
    AppendKeepsDistinct(chips, emoji, Count(next, id, emoji));
    var chips' := chips + [Chip(emoji, Count(next, id, emoji))];
    forall e | Count(next, id, e) > 0 ensures ChipIndex(chips', e) < |chips'| {
      var k := if e == emoji then |chips| else ChipIndex(chips, e);
      assert chips'[k].emoji == e;
    }
    forall c | c in chips' ensures c.count == Count(next, id, c.emoji) > 0 {
      assert c in chips || c == Chip(emoji, Count(next, id, emoji));
    }
  }

  lemma AppendKeepsDistinct(chips: seq<Chip>, emoji: string, count: nat)
    requires Distinct(chips) && ChipIndex(chips, emoji) == |chips|
    ensures Distinct(chips + [Chip(emoji, count)])
    ensures forall c | c in chips :: c.emoji != emoji
  {
  }

  lemma DropChip(chips: seq<Chip>, reactions: Triples, next: Triples, id: nat, emoji: string)
    requires ChipsShow(chips, reactions, id) && OnlyChanges(reactions, next, id, emoji)
    requires Count(next, id, emoji) == 0 && ChipIndex(chips, emoji) < |chips|
    ensures ChipsShow(chips[..ChipIndex(chips, emoji)] + chips[ChipIndex(chips, emoji) + 1..], next, id)
  {
    hide Count, ChipIndex;
    var i := ChipIndex(chips, emoji);
    var chips' := chips[..i] + chips[i + 1..];
    DropKeepsDistinct(chips, i);
    forall e | Count(next, id, e) > 0 ensures ChipIndex(chips', e) < |chips'| {
      var k := ChipIndex(chips, e);
      assert chips'[if k < i then k else k - 1].emoji == e;
    }
  }

  lemma DropKeepsDistinct(chips: seq<Chip>, i: nat)
    requires Distinct(chips) && i < |chips|
    ensures Distinct(chips[..i] + chips[i + 1..])
    ensures forall c | c in chips[..i] + chips[i + 1..] :: c in chips && c.emoji != chips[i].emoji
  {
  }

  lemma KeepChips(chips: seq<Chip>, reactions: Triples, next: Triples, id: nat, emoji: string)
    requires ChipsShow(chips, reactions, id) && OnlyChanges(reactions, next, id, emoji)
    requires Count(next, id, emoji) == Count(reactions, id, emoji)
    ensures ChipsShow(chips, next, id)
  {
    hide Count;
  }

  lemma {:induction false} WithoutRemoves(mine: seq<string>, emoji: string)
    ensures forall e :: e in Without(mine, emoji) <==> e in mine && e != emoji
  {
    if mine == [] {
    } else {
      WithoutRemoves(mine[1..], emoji);
      assert forall e :: e in mine <==> e == mine[0] || e in mine[1..];
    }
  }

  /** The step at the message the event is about: an add, whether or not it was one already. */
  lemma AbsorbAdd(m: ClientMessage, reactions: Triples, u: Sub, emoji: string, me: Sub)
    requires InSync(m, reactions, me)
    ensures var (next, e) := React(reactions, m.id, u, emoji, true); InSync(Absorb(m, e, me), next, me)
  {
    hide Own, Users;
    var (next, e) := React(reactions, m.id, u, emoji, true);
    AddTriple(reactions, m.id, u, emoji);
    if ChipIndex(m.chips, emoji) < |m.chips| {
      SetChip(m.chips, reactions, next, m.id, emoji);
    } else {
      AppendChip(m.chips, reactions, next, m.id, emoji);
    }
  }

  /** The same for a removal, whether or not there was anything to remove. */
  lemma AbsorbRemove(m: ClientMessage, reactions: Triples, u: Sub, emoji: string, me: Sub)
    requires InSync(m, reactions, me)
    ensures var (next, e) := React(reactions, m.id, u, emoji, false); InSync(Absorb(m, e, me), next, me)
  {
    hide React, Absorb, ChipsShow, Own;
    RemovalKeepsChips(m, reactions, u, emoji, me);
    RemovalKeepsOwn(m, reactions, u, emoji, me);
  }

  lemma RemovalKeepsChips(m: ClientMessage, reactions: Triples, u: Sub, emoji: string, me: Sub)
    requires ChipsShow(m.chips, reactions, m.id)
    ensures var (next, e) := React(reactions, m.id, u, emoji, false);
      Absorb(m, e, me).id == m.id && ChipsShow(Absorb(m, e, me).chips, next, m.id)
  {
    hide Own, Users, Without, ChipsShow;
    var (next, e) := React(reactions, m.id, u, emoji, false);
    RemoveTriple(reactions, m.id, u, emoji);
    if ChipIndex(m.chips, emoji) == |m.chips| {
      NoChipNoUsers(m.chips, reactions, m.id, emoji);
      KeepChips(m.chips, reactions, next, m.id, emoji);
    } else if e.count > 0 {
      SetChip(m.chips, reactions, next, m.id, emoji);
    } else {
      DropChip(m.chips, reactions, next, m.id, emoji);
    }
  }

  lemma NoChipNoUsers(chips: seq<Chip>, reactions: Triples, id: nat, emoji: string)
    requires ChipsShow(chips, reactions, id) && ChipIndex(chips, emoji) == |chips|
    ensures Users(reactions, id, emoji) == {}
  {
    hide Users;
    assert Count(reactions, id, emoji) == 0;
  }

  lemma RemovalKeepsOwn(m: ClientMessage, reactions: Triples, u: Sub, emoji: string, me: Sub)
    requires InSync(m, reactions, me)
    ensures var (next, e) := React(reactions, m.id, u, emoji, false);
      forall x :: x in Absorb(m, e, me).mine <==> x in Own(next, m.id, me)
  {
    hide Own, Users, ChipsShow;
    RemoveTriple(reactions, m.id, u, emoji);
    WithoutRemoves(m.mine, emoji);
    if ChipIndex(m.chips, emoji) == |m.chips| {
      NoChipNoUsers(m.chips, reactions, m.id, emoji);
      NotOwned(reactions, m.id, u, emoji);
    }
  }

  lemma NotOwned(reactions: Triples, id: nat, u: Sub, emoji: string)
    requires Users(reactions, id, emoji) == {}
    ensures emoji !in Own(reactions, id, u)
  {
    assert emoji in Own(reactions, id, u) ==> (id, u, emoji) in reactions;
    assert (id, u, emoji) in reactions ==> u in Users(reactions, id, emoji);
  }

  /** Any other message is unaffected. */
  lemma OtherMessageKeepsSync(m: ClientMessage, reactions: Triples, id: nat, u: Sub, emoji: string, add: bool, me: Sub)
    requires InSync(m, reactions, me) && id != m.id
    ensures InSync(m, React(reactions, id, u, emoji, add).0, me)
  {
    hide Own, Users;
    AddTriple(reactions, id, u, emoji);
    RemoveTriple(reactions, id, u, emoji);
    var next := React(reactions, id, u, emoji, add).0;
    assert forall e :: Users(next, m.id, e) == Users(reactions, m.id, e);
    KeepChips(m.chips, reactions, next, m.id, emoji);
  }

  /** One call on the server. */
  datatype Act = Act(id: nat, u: Sub, emoji: string, add: bool)

  function Deliver(m: ClientMessage, e: Event, me: Sub): ClientMessage {
    if e.messageId == m.id then Absorb(m, e, me) else m
  }

  function Play(m: ClientMessage, reactions: Triples, acts: seq<Act>, me: Sub): (ClientMessage, Triples)
    decreases acts
  {
    if acts == [] then (m, reactions)
    else
      var (next, e) := React(reactions, acts[0].id, acts[0].u, acts[0].emoji, acts[0].add);
      Play(Deliver(m, e, me), next, acts[1..], me)
  }

  /** A message that starts in sync stays in sync under every run of reaction calls, their events
      delivered in order. */
  lemma {:induction false} ClientStaysInSync(m: ClientMessage, reactions: Triples, acts: seq<Act>, me: Sub)
    requires InSync(m, reactions, me)
    ensures InSync(Play(m, reactions, acts, me).0, Play(m, reactions, acts, me).1, me)
    decreases acts
  {
    hide InSync, Absorb, React;
    if acts == [] {
    } else {
      var a := acts[0];
      var (next, e) := React(reactions, a.id, a.u, a.emoji, a.add);
      DeliverKeepsSync(m, reactions, a, me);
      ClientStaysInSync(Deliver(m, e, me), next, acts[1..], me);
    }
  }

  lemma EventIsAbout(reactions: Triples, a: Act)
    ensures React(reactions, a.id, a.u, a.emoji, a.add).1.messageId == a.id
  {
  }

  ghost predicate DistinctIds(messages: seq<ClientMessage>) {
    forall i, j | 0 <= i < j < |messages| :: messages[i].id != messages[j].id
  }

  /** The open conversation shows every one of its messages as the server would. */
  ghost predicate AllInSync(messages: seq<ClientMessage>, reactions: Triples, me: Sub) {
    DistinctIds(messages) && forall k | 0 <= k < |messages| :: InSync(messages[k], reactions, me)
  }

  /** One event delivered to the whole conversation. */
  function DeliverAll(messages: seq<ClientMessage>, e: Event, me: Sub): (after: seq<ClientMessage>)
    ensures |after| == |messages|
    ensures forall k | 0 <= k < |messages| :: after[k] == Deliver(messages[k], e, me)
  {
    seq(|messages|, k requires 0 <= k < |messages| => Deliver(messages[k], e, me))
  }

  lemma DeliverKeepsSync(m: ClientMessage, reactions: Triples, a: Act, me: Sub)
    requires InSync(m, reactions, me)
    ensures var (next, e) := React(reactions, a.id, a.u, a.emoji, a.add);
      Deliver(m, e, me).id == m.id && InSync(Deliver(m, e, me), next, me)
  {
    EventIsAbout(reactions, a);
    hide InSync, React;
    if a.id != m.id {
      OtherMessageKeepsSync(m, reactions, a.id, a.u, a.emoji, a.add, me);
    } else if a.add {
      AbsorbAdd(m, reactions, a.u, a.emoji, me);
    } else {
      AbsorbRemove(m, reactions, a.u, a.emoji, me);
    }
  }

  /** A reaction call on the server and its event in the browser keep the whole conversation in sync. */
  lemma EventKeepsAllInSync(messages: seq<ClientMessage>, reactions: Triples, a: Act, me: Sub)
    requires AllInSync(messages, reactions, me)
    ensures var (next, e) := React(reactions, a.id, a.u, a.emoji, a.add);
      AllInSync(DeliverAll(messages, e, me), next, me)
  {
    hide InSync, React, Deliver;
    forall k | 0 <= k < |messages|
      ensures var (next, e) := React(reactions, a.id, a.u, a.emoji, a.add);
        Deliver(messages[k], e, me).id == messages[k].id && InSync(Deliver(messages[k], e, me), next, me)
    {
      DeliverKeepsSync(messages[k], reactions, a, me);
    }
  }

  /** The conversation and the server after a run of reaction calls, their events delivered in order. */
  function PlayAll(messages: seq<ClientMessage>, reactions: Triples, acts: seq<Act>, me: Sub)
    : (seq<ClientMessage>, Triples)
    decreases acts
  {
    if acts == [] then (messages, reactions)
    else
      var (next, e) := React(reactions, acts[0].id, acts[0].u, acts[0].emoji, acts[0].add);
      PlayAll(DeliverAll(messages, e, me), next, acts[1..], me)
  }

  lemma {:induction false} ConversationStaysInSync(messages: seq<ClientMessage>, reactions: Triples, acts: seq<Act>,
                                                   me: Sub)
    requires AllInSync(messages, reactions, me)
    ensures AllInSync(PlayAll(messages, reactions, acts, me).0, PlayAll(messages, reactions, acts, me).1, me)
    decreases acts
  {
    hide AllInSync, React, DeliverAll;
    if acts == [] {
    } else {
      var a := acts[0];
      var (next, e) := React(reactions, a.id, a.u, a.emoji, a.add);
      EventKeepsAllInSync(messages, reactions, a, me);
      ConversationStaysInSync(DeliverAll(messages, e, me), next, acts[1..], me);
    }
  }

  /** In sync means: the same counts and the same own reactions as the server's aggregate. */
  lemma InSyncMatchesAggregate(m: ClientMessage, reactions: Triples, me: Sub, a: Aggregate)
    requires InSync(m, reactions, me) && Aggregates(a, reactions, m.id, me)
    ensures Elements(m.mine) == a.mine
    ensures forall e, n | n > 0 :: Chip(e, n) in m.chips <==> e in a.counts && a.counts[e] == n
  {
    hide Own, Users, Count;
    forall e, n | n > 0
      ensures Chip(e, n) in m.chips <==> e in a.counts && a.counts[e] == n
    {
      if e in a.counts {
        var i := ChipIndex(m.chips, e);
        assert m.chips[i] == Chip(e, a.counts[e]);
      }
    }
  }

  // ---------------------------------------------------------------------------------------------

  /** The open conversation in the browser; events change its messages in place. */
  class ClientState {
    const me: Sub
    var messages: seq<ClientMessage>

    constructor (me: Sub, messages: seq<ClientMessage>)
      ensures this.me == me && this.messages == messages
    {
      this.me := me;
      this.messages := messages;
    }

    /** The chip of the emoji is set, added or dropped, and the viewer's own list follows. */
    method AbsorbEvent(message: ClientMessage, e: Event) returns (m: ClientMessage)
      ensures m == Absorb(message, e, me)
    {
      m := message;
      var index := 0;
      while index < |m.chips| && m.chips[index].emoji != e.emoji
        invariant 0 <= index <= |m.chips|
        invariant forall j | 0 <= j < index :: m.chips[j].emoji != e.emoji
      {
        index := index + 1;
      }
      FirstChip(m.chips, e.emoji, index);
      if e.added {
        if index < |m.chips| {
          m := m.(chips := m.chips[index := Chip(e.emoji, e.count)]);
        } else {
          m := m.(chips := m.chips + [Chip(e.emoji, e.count)]);
        }
        if e.bySub == me && e.emoji !in m.mine {
          m := m.(mine := m.mine + [e.emoji]);
        }
      } else if index < |m.chips| {
        if e.count > 0 {
          m := m.(chips := m.chips[index := Chip(e.emoji, e.count)]);
        } else {
          m := m.(chips := m.chips[..index] + m.chips[index + 1..]);
        }
        if e.bySub == me {
          m := m.(mine := Without(m.mine, e.emoji));
        }
      }
    }

    /** The first message with the event's id absorbs it; the others are left alone. */
    method ApplyEvent(e: Event)
      modifies this`messages
      ensures |messages| == |old(messages)|
      ensures forall k | 0 <= k < |messages| ::
                messages[k] == if old(messages)[k].id == e.messageId
                                  && forall j | 0 <= j < k :: old(messages)[j].id != e.messageId
                               then Absorb(old(messages)[k], e, me)
                               else old(messages)[k]
      ensures DistinctIds(old(messages)) ==> messages == DeliverAll(old(messages), e, me)
    {
      var at := 0;
      while at < |messages| && messages[at].id != e.messageId
        invariant 0 <= at <= |messages| && messages == old(messages)
        invariant forall j | 0 <= j < at :: messages[j].id != e.messageId
      {
        at := at + 1;
      }
      if at == |messages| {
        return;
      }
      var m := AbsorbEvent(messages[at], e);
      messages := messages[at := m];
    }
  }

  lemma FirstChip(chips: seq<Chip>, emoji: string, i: nat)
    requires i <= |chips| && (i < |chips| ==> chips[i].emoji == emoji)
    requires forall j | 0 <= j < i :: chips[j].emoji != emoji
    ensures ChipIndex(chips, emoji) == i
  {
  }
}

/** What a poll shows (app/polls/service.py). */
module Tally {
  import opened Prelude
  import opened Store
  import opened Messages
  import opened Runs

  type Votes = map<(nat, Sub), set<int>>

  /** Who voted in the poll. */
  function Voters(votes: Votes, p: nat): set<Sub> {
    set u | u in (set v | v in votes :: v.1) && (p, u) in votes
  }

  /** How many of some voters chose option i. */
  function Chose(votes: Votes, p: nat, voters: set<Sub>, i: int): set<Sub> {
    set u | u in voters && (p, u) in votes && i in votes[(p, u)]
  }

  /** The sum of count over the options 0 .. n. */
  function SumCounts(votes: Votes, p: nat, voters: set<Sub>, n: nat): nat {
    if n == 0 then 0 else SumCounts(votes, p, voters, n - 1) + |Chose(votes, p, voters, n - 1)|
  }

  /** The sum of the sizes of the stored votes. */
  ghost function SumSizes(votes: Votes, p: nat, voters: set<Sub>): nat
    requires forall u | u in voters :: (p, u) in votes
    decreases |voters|
  {
    if voters == {} then 0
    else
      var u :| u in voters;
      |votes[(p, u)]| + SumSizes(votes, p, voters - {u})
  }

  /** The chosen indexes below n. */
  function UpTo(choice: set<int>, n: nat): set<int> {
    set i | i in choice && 0 <= i < n
  }

  lemma {:induction false} OneMoreVoter(votes: Votes, p: nat, voters: set<Sub>, u: Sub, n: nat)
    requires u in voters && (p, u) in votes
    ensures SumCounts(votes, p, voters, n) == SumCounts(votes, p, voters - {u}, n) + |UpTo(votes[(p, u)], n)|
  {
    if n == 0 {
      assert UpTo(votes[(p, u)], 0) == {};
    } else {
      OneMoreVoter(votes, p, voters, u, n - 1);
      var choice := votes[(p, u)];
      if n - 1 in choice {
        assert Chose(votes, p, voters, n - 1) == Chose(votes, p, voters - {u}, n - 1) + {u};
        assert UpTo(choice, n) == UpTo(choice, n - 1) + {n - 1};
      } else {
        assert Chose(votes, p, voters, n - 1) == Chose(votes, p, voters - {u}, n - 1);
        assert UpTo(choice, n) == UpTo(choice, n - 1);
      }
    }
  }

  lemma {:induction false} NobodyVoted(votes: Votes, p: nat, n: nat)
    ensures SumCounts(votes, p, {}, n) == 0
  {
    if n == 0 {
    } else {
      NobodyVoted(votes, p, n - 1);
      assert Chose(votes, p, {}, n - 1) == {};
    }
  }

  lemma {:induction false} CountsAddUpFor(votes: Votes, p: nat, voters: set<Sub>, n: nat)
    requires forall u | u in voters :: (p, u) in votes && forall i | i in votes[(p, u)] :: 0 <= i < n
    ensures SumCounts(votes, p, voters, n) == SumSizes(votes, p, voters)
    decreases |voters|
  {
    if voters == {} {
      NobodyVoted(votes, p, n);
    } else {
      var u :| u in voters && SumSizes(votes, p, voters) == |votes[(p, u)]| + SumSizes(votes, p, voters - {u});
      OneMoreVoter(votes, p, voters, u, n);
      assert UpTo(votes[(p, u)], n) == votes[(p, u)];
      CountsAddUpFor(votes, p, voters - {u}, n);
    }
  }

  lemma {:induction false} SingleChoiceSizes(votes: Votes, p: nat, voters: set<Sub>)
    requires forall u | u in voters :: (p, u) in votes && |votes[(p, u)]| == 1
    ensures SumSizes(votes, p, voters) == |voters|
    decreases |voters|
  {
    if voters == {} {
    } else {
      var u :| u in voters && SumSizes(votes, p, voters) == |votes[(p, u)]| + SumSizes(votes, p, voters - {u});
      SingleChoiceSizes(votes, p, voters - {u});
    }
  }

  /** In every reachable state the displayed counts add up to the total size of the stored votes, and
      to the number of votes where only one option may be chosen. */
  lemma CountsAddUp(ops: seq<Op>, p: nat)
    requires p in Run(EMPTY, ops).polls
    ensures var db := Run(EMPTY, ops); var n := |db.polls[p].options|;
      && SumCounts(db.votes, p, Voters(db.votes, p), n) == SumSizes(db.votes, p, Voters(db.votes, p))
      && (!db.polls[p].multiple ==> SumCounts(db.votes, p, Voters(db.votes, p), n) == |Voters(db.votes, p)|)
  {
    RunKeepsInv(ops);
    var db := Run(EMPTY, ops);
    VotesAreValid(db, p);
    CountsAddUpFor(db.votes, p, Voters(db.votes, p), |db.polls[p].options|);
    if !db.polls[p].multiple { SingleChoiceSizes(db.votes, p, Voters(db.votes, p)); }
  }

  lemma VotesAreValid(db: Db, p: nat)
    requires Inv(db) && p in db.polls
    ensures forall u | u in Voters(db.votes, p) :: (p, u) in db.votes && ChoiceOk(db.votes[(p, u)], db.polls[p])
  {
  }

  lemma RevoteCounts(votes: Votes, p: nat, me: Sub, choice: set<int>, i: int)
    ensures var after := votes[(p, me) := choice];
      |Chose(after, p, Voters(after, p), i)| - |Chose(votes, p, Voters(votes, p), i)|
        == (if i in choice then 1 else 0) - (if (p, me) in votes && i in votes[(p, me)] then 1 else 0)
  {
    var after := votes[(p, me) := choice];
    VotersAre(votes, p);
    VotersAre(after, p);
    var others := Chose(votes, p, Voters(votes, p), i) - {me};
    hide Voters;
    assert Chose(votes, p, Voters(votes, p), i)
        == if (p, me) in votes && i in votes[(p, me)] then others + {me} else others;
    assert Chose(after, p, Voters(after, p), i) == if i in choice then others + {me} else others;
  }

  /** A vote moves exactly the difference: the voter joins the options newly chosen, leaves those no
      longer chosen, and nothing else changes. */
  lemma VoteMovesDifference(db: Db, me: Sub, g: nat, p: nat, indexes: seq<int>, i: int)
    requires Vote(db, me, g, p, indexes).1 == Done
    ensures var t := Vote(db, me, g, p, indexes).0;
      |Chose(t.votes, p, Voters(t.votes, p), i)| - |Chose(db.votes, p, Voters(db.votes, p), i)|
        == (if i in indexes then 1 else 0) - (if (p, me) in db.votes && i in db.votes[(p, me)] then 1 else 0)
    ensures var t := Vote(db, me, g, p, indexes).0;
      t == db.(votes := t.votes) && t.votes - {(p, me)} == db.votes - {(p, me)}
  {
    hide VoteError, Voters, Chose;
    RevoteCounts(db.votes, p, me, Elements(indexes), i);
  }

  lemma VotersAre(votes: Votes, p: nat)
    ensures forall u :: u in Voters(votes, p) <==> (p, u) in votes
  {
    forall u | (p, u) in votes ensures u in Voters(votes, p) {
      assert (p, u).1 in (set v | v in votes :: v.1);
    }
  }

  datatype OptionCount = OptionCount(index: int, text: string, count: nat)

  /** The payload's tally: per option its index, text and number of voters. */
  predicate ShowsTally(shown: seq<OptionCount>, options: seq<string>, votes: Votes, p: nat) {
    && |shown| == |options|
    && forall i | 0 <= i < |shown| :: shown[i] == OptionCount(i, options[i], |Chose(votes, p, Voters(votes, p), i)|)
  }

  function CountIn(counts: map<int, nat>, i: int): nat {
    if i in counts then counts[i] else 0
  }

  /** poll_payload: one dictionary of counts filled vote by vote, then read out option by option. */
  method PollPayload(options: seq<string>, votes: Votes, p: nat, viewer: Sub)
    returns (shown: seq<OptionCount>, total: nat, mine: set<int>)
    ensures ShowsTally(shown, options, votes, p)
    ensures total == |Voters(votes, p)|
    ensures mine == if (p, viewer) in votes then votes[(p, viewer)] else {}
  {
    VotersAre(votes, p);
    var counts: map<int, nat> := map[];
    mine := {};
    var todo := Voters(votes, p);
    total := |todo|;
    while todo != {}
      invariant todo <= Voters(votes, p)
      invariant forall i :: CountIn(counts, i) == |Chose(votes, p, Voters(votes, p) - todo, i)|
      invariant mine == if viewer in Voters(votes, p) - todo then votes[(p, viewer)] else {}
      decreases todo
    {
      var u :| u in todo;
      ghost var counted := Voters(votes, p) - todo;
      counts := CountVote(votes, p, counted, u, counts);
      todo := todo - {u};
      assert Voters(votes, p) - todo == counted + {u};
      if u == viewer {
        mine := votes[(p, u)];
      }
    }
    assert Voters(votes, p) - todo == Voters(votes, p);
    shown := seq(|options|, i requires 0 <= i < |options| => OptionCount(i, options[i], CountIn(counts, i)));
  }

  /** Adds one vote to the dictionary. */
  method CountVote(votes: Votes, p: nat, ghost voters: set<Sub>, u: Sub, counts: map<int, nat>)
    returns (r: map<int, nat>)
    requires (p, u) in votes && u !in voters
    requires forall i :: CountIn(counts, i) == |Chose(votes, p, voters, i)|
    ensures forall i :: CountIn(r, i) == |Chose(votes, p, voters + {u}, i)|
  {
    r := counts;
    var choice := votes[(p, u)];
    var left := choice;
    while left != {}
      invariant left <= choice
      invariant forall i :: CountIn(r, i) == CountIn(counts, i) + (if i in choice - left then 1 else 0)
      decreases left
    {
      var i := Pick(left);
      left := left - {i};
      r := r[i := CountIn(r, i) + 1];
    }
    forall i ensures CountIn(r, i) == |Chose(votes, p, voters + {u}, i)| {
      if i in choice {
        assert Chose(votes, p, voters + {u}, i) == Chose(votes, p, voters, i) + {u};
      } else {
        assert Chose(votes, p, voters + {u}, i) == Chose(votes, p, voters, i);
      }
    }
  }
}

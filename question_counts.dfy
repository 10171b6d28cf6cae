/**
 * What the store path of `updateQuestion` achieves: with fresh anonymous ids
 * and distinct choice indexes, every local count ends at the larger of the
 * local and the remote one, no vote row is lost, and the answer is `true`
 * exactly when some count went up.
 */
module QuestionCounts {
  import opened Common
  import opened ScyllaRows
  import opened PollVotes
  import opened ApQuestion

  /** The voter id of an anonymous vote. */
  function AnonId(id: string): string {
    "anonymous-" + id
  }

  /** The choice indexes of the local poll are pairwise distinct (they are the keys of a map). */
  predicate IndexesDistinct(entries: seq<(int, string)>) {
    forall i, j :: 0 <= i < j < |entries| ==> entries[i].0 != entries[j].0
  }

  /** The ids `genId` mints are pairwise distinct, and none names a voter of the note already. */
  predicate FreshIds(rows: seq<VoteRow>, noteId: string, minted: seq<(string, int)>) {
    && (forall j, l :: 0 <= j < l < |minted| ==> minted[j].0 != minted[l].0)
    && (forall j :: 0 <= j < |minted| ==> VoterRows(rows, noteId, AnonId(minted[j].0)) == [])
  }

  lemma AnonIdInjective(a: string, b: string)
    ensures AnonId(a) == AnonId(b) ==> a == b
  {
    if AnonId(a) == AnonId(b) {
      assert a == AnonId(a)[10..];
      assert b == AnonId(b)[10..];
    }
  }

  lemma {:induction false} RepeatCount(x: int, d: nat, y: int)
    ensures multiset(Repeat(x, d))[y] == if x == y then d else 0
    decreases d
  {
    if d > 0 {
      RepeatCount(x, d - 1, y);
      assert Repeat(x, d) == Repeat(x, d - 1) + [x];
    }
  }

  lemma PrefixCount(s: seq<int>, n: nat)
    requires 0 < n <= |s|
    ensures multiset(s[..n]) == multiset(s[..n - 1]) + multiset{s[n - 1]}
  {
    assert s[..n] == s[..n - 1] + [s[n - 1]];
  }

  /** A key nobody holds before the inserts and no insert writes stays free. */
  lemma {:induction false} InsertedKeyFree(base: seq<VoteRow>, noteId: string, plan: seq<int>, n: nat,
                                           minted: seq<(string, int)>, u: string)
    requires n <= |plan| && n <= |minted|
    requires VoterRows(base, noteId, u) == []
    requires forall j :: 0 <= j < n ==> AnonId(minted[j].0) != u
    ensures VoterRows(Inserted(base, noteId, plan, n, minted), noteId, u) == []
    decreases n
  {
    if n > 0 {
      InsertedKeyFree(base, noteId, plan, n - 1, minted, u);
      var prev := Inserted(base, noteId, plan, n - 1, minted);
      var row := AnonRow(noteId, plan[n - 1], minted[n - 1].0, minted[n - 1].1);
      var after := Upsert(prev, row);
      UpsertMembers(prev, row);
      forall i | 0 <= i < |after|
        ensures !KeyIs(noteId, u)(after[i])
      {
        if after[i] != row {
          assert after[i] in prev;
          assert after[i] !in VoterRows(prev, noteId, u);
        }
      }
      FilterNone(after, KeyIs(noteId, u));
    }
  }

  /** A row whose key no insert writes survives the inserts. */
  lemma {:induction false} InsertedKeeps(base: seq<VoteRow>, noteId: string, plan: seq<int>, n: nat,
                                         minted: seq<(string, int)>, x: VoteRow)
    requires n <= |plan| && n <= |minted| && x in base
    requires forall j :: 0 <= j < n ==> !HasKey(x, noteId, AnonId(minted[j].0))
    ensures x in Inserted(base, noteId, plan, n, minted)
    decreases n
  {
    if n > 0 {
      InsertedKeeps(base, noteId, plan, n - 1, minted, x);
      UpsertMembers(Inserted(base, noteId, plan, n - 1, minted), AnonRow(noteId, plan[n - 1], minted[n - 1].0, minted[n - 1].1));
    }
  }

  /** With fresh ids the `n`-th insert adds one vote, for its own index. */
  lemma InsertedTallyStep(base: seq<VoteRow>, noteId: string, plan: seq<int>, n: nat,
                          minted: seq<(string, int)>, index: int)
    requires 0 < n <= |plan| && n <= |minted| && FreshIds(base, noteId, minted)
    ensures Tally(VotesOf(Inserted(base, noteId, plan, n, minted), noteId), index)
         == Tally(VotesOf(Inserted(base, noteId, plan, n - 1, minted), noteId), index)
          + (if plan[n - 1] == index then 1 else 0)
  {
    var u := AnonId(minted[n - 1].0);
    forall j | 0 <= j < n - 1
      ensures AnonId(minted[j].0) != u
    {
      AnonIdInjective(minted[j].0, minted[n - 1].0);
    }
    InsertedKeyFree(base, noteId, plan, n - 1, minted, u);
    var prev := Inserted(base, noteId, plan, n - 1, minted);
    var row := AnonRow(noteId, plan[n - 1], minted[n - 1].0, minted[n - 1].1);
    UpsertTallyFresh(prev, row, noteId, index);
    AnonVote(noteId, plan[n - 1], minted[n - 1].0, minted[n - 1].1);
  }

  /** With fresh ids the tally grows by the number of times the plan names the index. */
  lemma {:induction false} InsertedTally(base: seq<VoteRow>, noteId: string, plan: seq<int>, n: nat,
                                         minted: seq<(string, int)>, index: int)
    requires n <= |plan| && n <= |minted| && FreshIds(base, noteId, minted)
    ensures Tally(VotesOf(Inserted(base, noteId, plan, n, minted), noteId), index)
         == Tally(VotesOf(base, noteId), index) + multiset(plan[..n])[index]
    decreases n
  {
    if n > 0 {
      InsertedTally(base, noteId, plan, n - 1, minted, index);
      InsertedTallyStep(base, noteId, plan, n, minted, index);
      PrefixCount(plan, n);
    }
  }

  /** When every answer is found, every entry found its answer. */
  lemma {:induction false} PlanFound(entries: seq<(int, string)>, votes: seq<Vote>, answers: seq<ApChoice>, i: nat)
    requires Plan(entries, votes, answers).1 && i < |entries|
    ensures RemoteCount(answers, entries[i].1).Some?
    decreases |entries|
  {
    if i < |entries| - 1 {
      var init := entries[..|entries| - 1];
      PlanFound(init, votes, answers, i);
    }
  }

  /** An index of no entry is never planned. */
  lemma {:induction false} PlanAbsent(entries: seq<(int, string)>, votes: seq<Vote>, answers: seq<ApChoice>, x: int)
    requires forall i :: 0 <= i < |entries| ==> entries[i].0 != x
    ensures multiset(Plan(entries, votes, answers).0)[x] == 0
    decreases |entries|
  {
    if |entries| > 0 {
      var init := entries[..|entries| - 1];
      var e := entries[|entries| - 1];
      PlanAbsent(init, votes, answers, x);
      var remote := RemoteCount(answers, e.1);
      if Plan(init, votes, answers).1 && remote.Some? {
        RepeatCount(e.0, Deficit(Tally(votes, e.0), remote.value), x);
      }
    }
  }

  /** With distinct indexes, an entry's index is planned exactly as often as its deficit. */
  lemma {:induction false} PlanDeficit(entries: seq<(int, string)>, votes: seq<Vote>, answers: seq<ApChoice>, i: nat)
    requires Plan(entries, votes, answers).1 && i < |entries| && IndexesDistinct(entries)
    ensures RemoteCount(answers, entries[i].1).Some?
    ensures multiset(Plan(entries, votes, answers).0)[entries[i].0]
         == Deficit(Tally(votes, entries[i].0), RemoteCount(answers, entries[i].1).value)
    decreases |entries|
  {
    PlanFound(entries, votes, answers, i);
    var init := entries[..|entries| - 1];
    var e := entries[|entries| - 1];
    var remote := RemoteCount(answers, e.1);
    var d := Deficit(Tally(votes, e.0), remote.value);
    RepeatCount(e.0, d, entries[i].0);
    if i == |entries| - 1 {
      PlanAbsent(init, votes, answers, e.0);
    } else {
      PlanDeficit(init, votes, answers, i);
    }
  }

  /** The remote count of the entry's answer exceeds its local count. */
  predicate Behind(votes: seq<Vote>, answers: seq<ApChoice>, e: (int, string)) {
    var remote := RemoteCount(answers, e.1);
    remote.Some? && remote.value.Some? && Tally(votes, e.0) < remote.value.value
  }

  /** While every answer is found, the plan of the first `n` entries is empty exactly when none of them is behind. */
  lemma {:induction false} PlanEmpty(entries: seq<(int, string)>, votes: seq<Vote>, answers: seq<ApChoice>, n: nat)
    requires n <= |entries| && Plan(entries[..n], votes, answers).1
    ensures |Plan(entries[..n], votes, answers).0| == 0 <==>
      forall i :: 0 <= i < n ==> !Behind(votes, answers, entries[i])
  {
    if n > 0 {
      PlanEmptyStep(entries, votes, answers, n);
      PlanEmpty(entries, votes, answers, n - 1);
      assert (forall i :: 0 <= i < n ==> !Behind(votes, answers, entries[i]))
        <==> (forall i :: 0 <= i < n - 1 ==> !Behind(votes, answers, entries[i])) && !Behind(votes, answers, entries[n - 1]);
    }
  }

  /** One more found entry leaves the plan empty exactly when the plan was empty and the entry is not behind. */
  lemma PlanEmptyStep(entries: seq<(int, string)>, votes: seq<Vote>, answers: seq<ApChoice>, n: nat)
    requires 0 < n <= |entries| && Plan(entries[..n], votes, answers).1
    ensures Plan(entries[..n - 1], votes, answers).1
    ensures |Plan(entries[..n], votes, answers).0| == 0 <==>
      |Plan(entries[..n - 1], votes, answers).0| == 0 && !Behind(votes, answers, entries[n - 1])
  {
    var e := entries[n - 1];
    var remote := RemoteCount(answers, e.1);
    var prev := Plan(entries[..n - 1], votes, answers);
    assert prev.1 && remote.Some?
      && Plan(entries[..n], votes, answers) == (prev.0 + Repeat(e.0, Deficit(Tally(votes, e.0), remote.value)), true) by {
      assert entries[..n][..n - 1] == entries[..n - 1];
    }
  }

  /**
   * The store path of `updateQuestion` raises each local count to the remote
   * one when the remote one is larger, and leaves it alone otherwise.
   */
  lemma CatchUpTally(rows: seq<VoteRow>, noteId: string, entries: seq<(int, string)>, answers: seq<ApChoice>,
                     minted: seq<(string, int)>, i: nat)
    requires |Plan(entries, VotesOf(rows, noteId), answers).0| <= |minted|
    requires IndexesDistinct(entries) && FreshIds(rows, noteId, minted)
    requires CatchUp(rows, noteId, entries, answers, minted).0.Ok? && i < |entries|
    ensures var before := Tally(VotesOf(rows, noteId), entries[i].0);
      var remote := RemoteCount(answers, entries[i].1);
      && remote.Some?
      && Tally(VotesOf(CatchUp(rows, noteId, entries, answers, minted).1, noteId), entries[i].0)
         == if remote.value.Some? && before < remote.value.value then remote.value.value else before
  {
    var votes := VotesOf(rows, noteId);
    var plan := Plan(entries, votes, answers).0;
    InsertedTally(rows, noteId, plan, |plan|, minted, entries[i].0);
    assert plan[..|plan|] == plan;
    PlanDeficit(entries, votes, answers, i);
  }

  /** With fresh ids the store path never removes a vote row. */
  lemma CatchUpKeeps(rows: seq<VoteRow>, noteId: string, entries: seq<(int, string)>, answers: seq<ApChoice>,
                     minted: seq<(string, int)>, x: VoteRow)
    requires |Plan(entries, VotesOf(rows, noteId), answers).0| <= |minted|
    requires FreshIds(rows, noteId, minted) && x in rows
    ensures x in CatchUp(rows, noteId, entries, answers, minted).1
  {
    var plan := Plan(entries, VotesOf(rows, noteId), answers).0;
    forall j | 0 <= j < |plan|
      ensures !HasKey(x, noteId, AnonId(minted[j].0))
    {
      assert x !in VoterRows(rows, noteId, AnonId(minted[j].0));
    }
    InsertedKeeps(rows, noteId, plan, |plan|, minted, x);
  }

  /** `updateQuestion` answers `true` exactly when some local count was behind a remote one. */
  lemma CatchUpChanged(rows: seq<VoteRow>, noteId: string, entries: seq<(int, string)>, answers: seq<ApChoice>,
                       minted: seq<(string, int)>)
    requires |Plan(entries, VotesOf(rows, noteId), answers).0| <= |minted|
    requires CatchUp(rows, noteId, entries, answers, minted).0.Ok?
    ensures CatchUp(rows, noteId, entries, answers, minted).0.value <==>
      exists i :: 0 <= i < |entries| && Behind(VotesOf(rows, noteId), answers, entries[i])
  {
    assert entries[..|entries|] == entries;
    PlanEmpty(entries, VotesOf(rows, noteId), answers, |entries|);
  }
}

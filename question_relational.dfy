/**
 * The relational path of `updateQuestion`
 * (`remote/activitypub/models/question.ts`): the poll row keeps one counter
 * per choice, which is overwritten in memory with the remote count and then
 * written back. Unlike the store path, a count may go down here.
 */
module QuestionRelational {
  import opened Common
  import opened ApQuestion

  /** `choices.indexOf(x)`: the first position holding `x`, or -1. */
  function IndexOf(s: seq<string>, x: string): (i: int)
    ensures -1 <= i < |s|
    ensures i == -1 <==> x !in s
    ensures 0 <= i ==> s[i] == x
    decreases |s|
  {
    if |s| == 0 then -1
    else if s[0] == x then 0
    else
      var j := IndexOf(s[1..], x);
      assert s == [s[0]] + s[1..];
      if j == -1 then -1 else j + 1
  }

  /** With distinct elements, `indexOf` finds each element at its own position. */
  lemma IndexOfDistinct(s: seq<string>, i: nat)
    requires NoDup(s) && i < |s|
    ensures IndexOf(s, s[i]) == i
  {
    var at := IndexOf(s, s[i]);
    assert s[i] in s;
  }

  /**
   * One pass of the loop body at choice `k`, from the answer so far and the
   * counters in memory. A missing answer throws, and the counters stay as
   * the throw left them.
   */
  function Visit(choices: seq<string>, answers: seq<ApChoice>, state: (Result<bool>, seq<int>), k: nat): (Result<bool>, seq<int>)
    requires |state.1| == |choices| && k < |choices|
  {
    if state.0.Err? then state
    else
      var at := IndexOf(choices, choices[k]);
      assert choices[k] in choices;
      var remote := RemoteCount(answers, choices[k]);
      if remote.None? then (Err(MissingAnswer), state.1)
      else
        var newCount := remote.value;
        if newCount.Some? && state.1[at] != newCount.value then (Ok(true), state.1[at := newCount.value])
        else state
  }

  /** The answer and the counters after the loop has visited the first `n` choices. */
  function Reconciled(choices: seq<string>, votes: seq<int>, answers: seq<ApChoice>, n: nat): (r: (Result<bool>, seq<int>))
    requires |votes| == |choices| && n <= |choices|
    ensures |r.1| == |votes|
    decreases n
  {
    if n == 0 then (Ok(false), votes)
    else Visit(choices, answers, Reconciled(choices, votes, answers, n - 1), n - 1)
  }

  /** The loop over `dbPoll.choices`, overwriting `dbPoll.votes` in place. */
  method ReconcileVotes(choices: seq<string>, votes: array<int>, answers: seq<ApChoice>) returns (r: Result<bool>)
    requires votes.Length == |choices|
    modifies votes
    ensures (r, votes[..]) == Reconciled(choices, old(votes[..]), answers, |choices|)
  {
    ghost var start := votes[..];
    var changed := false;
    for j := 0 to |choices|
      invariant (Ok(changed), votes[..]) == Reconciled(choices, start, answers, j)
    {
      var step := VisitChoice(choices, votes, answers, changed, j);
      if step.Err? {
        ReconciledStops(choices, start, answers, j + 1);
        return step;
      }
      changed := step.value;
    }
    r := Ok(changed);
  }

  /** The loop body for choice `k`: look up its answer and overwrite its counter when the count differs. */
  method VisitChoice(choices: seq<string>, votes: array<int>, answers: seq<ApChoice>, changed: bool, k: nat) returns (r: Result<bool>)
    requires votes.Length == |choices| && k < |choices|
    modifies votes
    ensures (r, votes[..]) == Visit(choices, answers, (Ok(changed), old(votes[..])), k)
  {
    var choice := choices[k];
    var at := IndexOf(choices, choice);
    assert choice in choices;
    var oldCount := votes[at];
    var remote := RemoteCount(answers, choice);
    if remote.None? {
      return Err(MissingAnswer);
    }
    var newCount := remote.value;
    r := Ok(changed);
    if newCount.Some? && oldCount != newCount.value {
      votes[at] := newCount.value;
      r := Ok(true);
    }
  }

  /** Once the loop has thrown, nothing after it changes the outcome. */
  lemma {:induction false} ReconciledStops(choices: seq<string>, votes: seq<int>, answers: seq<ApChoice>, n: nat)
    requires |votes| == |choices| && n <= |choices| && Reconciled(choices, votes, answers, n).0.Err?
    ensures Reconciled(choices, votes, answers, |choices|) == Reconciled(choices, votes, answers, n)
    decreases |choices| - n
  {
    if n < |choices| {
      ReconciledStops(choices, votes, answers, n + 1);
    }
  }

  /**
   * The relational path after the poll row was found: the answer, and the
   * counters written back by `Polls.update`, which is only reached when no
   * answer is missing.
   */
  method UpdatePollVotes(choices: seq<string>, stored: seq<int>, answers: seq<ApChoice>) returns (r: Result<bool>, written: seq<int>)
    requires |stored| == |choices|
    ensures var (res, after) := Reconciled(choices, stored, answers, |choices|);
      r == res && written == (if res.Ok? then after else stored)
  {
    var votes := new int[|stored|](i requires 0 <= i < |stored| => stored[i]);
    assert votes[..] == stored;
    r := ReconcileVotes(choices, votes, answers);
    if r.Err? {
      return r, stored;
    }
    written := votes[..];
  }

  /** With distinct choice texts, one more completed step overwrites the step's own counter, or nothing. */
  lemma ReconciledStep(choices: seq<string>, votes: seq<int>, answers: seq<ApChoice>, n: nat)
    requires |votes| == |choices| && 0 < n <= |choices| && IndexOf(choices, choices[n - 1]) == n - 1
    requires Reconciled(choices, votes, answers, n).0.Ok?
    ensures Reconciled(choices, votes, answers, n - 1).0.Ok?
    ensures RemoteCount(answers, choices[n - 1]).Some?
    ensures var prev := Reconciled(choices, votes, answers, n - 1);
      var remote := RemoteCount(answers, choices[n - 1]).value;
      Reconciled(choices, votes, answers, n)
      == if remote.Some? && prev.1[n - 1] != remote.value then (Ok(true), prev.1[n - 1 := remote.value]) else prev
  {
  }

  /** With distinct choice texts, a completed loop found an answer for every choice it visited. */
  lemma {:induction false} ReconciledFound(choices: seq<string>, votes: seq<int>, answers: seq<ApChoice>, n: nat, i: nat)
    requires |votes| == |choices| && i < n <= |choices| && NoDup(choices)
    requires Reconciled(choices, votes, answers, n).0.Ok?
    ensures RemoteCount(answers, choices[i]).Some?
    decreases n
  {
    IndexOfDistinct(choices, n - 1);
    ReconciledStep(choices, votes, answers, n);
    if i < n - 1 {
      ReconciledFound(choices, votes, answers, n - 1, i);
    }
  }

  /**
   * With distinct choice texts, a completed loop sets every visited counter
   * whose answer carries a count to that count and leaves the others alone.
   */
  lemma {:induction false} ReconciledCounts(choices: seq<string>, votes: seq<int>, answers: seq<ApChoice>, n: nat, i: nat)
    requires |votes| == |choices| && n <= |choices| && NoDup(choices) && i < |choices|
    requires Reconciled(choices, votes, answers, n).0.Ok?
    ensures Reconciled(choices, votes, answers, n).1[i]
         == if i < n && RemoteCount(answers, choices[i]).Some? && RemoteCount(answers, choices[i]).value.Some?
            then RemoteCount(answers, choices[i]).value.value else votes[i]
    decreases n
  {
    if n > 0 {
      IndexOfDistinct(choices, n - 1);
      ReconciledStep(choices, votes, answers, n);
      ReconciledCounts(choices, votes, answers, n - 1, i);
      var prev := Reconciled(choices, votes, answers, n - 1);
      var cur := Reconciled(choices, votes, answers, n);
      var remote := RemoteCount(answers, choices[n - 1]).value;
      if remote.Some? && prev.1[n - 1] != remote.value {
        assert cur.1 == prev.1[n - 1 := remote.value];
      } else {
        assert cur == prev;
      }
    }
  }

  /** A completed loop answers `true` exactly when some visited counter differed from its remote count. */
  lemma {:induction false} ReconciledChanged(choices: seq<string>, votes: seq<int>, answers: seq<ApChoice>, n: nat)
    requires |votes| == |choices| && n <= |choices| && NoDup(choices)
    requires Reconciled(choices, votes, answers, n).0.Ok?
    ensures Reconciled(choices, votes, answers, n).0.value <==>
      exists i :: 0 <= i < n && Differs(answers, votes, choices, i)
    decreases n
  {
    if n > 0 {
      IndexOfDistinct(choices, n - 1);
      ReconciledStep(choices, votes, answers, n);
      ReconciledChanged(choices, votes, answers, n - 1);
      ReconciledCounts(choices, votes, answers, n - 1, n - 1);
      var prev := Reconciled(choices, votes, answers, n - 1);
      var remote := RemoteCount(answers, choices[n - 1]).value;
      assert prev.1[n - 1] == votes[n - 1];
      if remote.Some? && votes[n - 1] != remote.value {
        assert Differs(answers, votes, choices, n - 1);
        assert Reconciled(choices, votes, answers, n).0 == Ok(true);
      } else {
        assert !Differs(answers, votes, choices, n - 1);
        assert Reconciled(choices, votes, answers, n) == prev;
      }
    }
  }

  /** The answer named like choice `i` carries a count other than the stored one. */
  predicate Differs(answers: seq<ApChoice>, votes: seq<int>, choices: seq<string>, i: nat)
    requires i < |votes| && i < |choices|
  {
    var remote := RemoteCount(answers, choices[i]);
    remote.Some? && remote.value.Some? && remote.value.value != votes[i]
  }
}

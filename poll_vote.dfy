/**
 * Casting a vote on a poll (`services/note/polls/vote.ts`). On the store path
 * the checks run in a fixed order (poll present, choice valid, voter not
 * blocked by the owner, not voted already), then the voter's choice set is
 * extended and written back as one `poll_vote` row. The relational path
 * keeps one row per chosen index and a per-choice counter instead.
 */
module PollVoting {
  import opened Common
  import opened ScyllaRows
  import opened PollVotes

  const PollNotFound: string := "poll not found"
  const InvalidChoice: string := "invalid choice param"
  const Blocked: string := "blocked"
  const AlreadyVoted: string := "already voted"

  /** The voting account; `host` is `None` for a local user. */
  datatype Voter = Voter(id: string, host: Option<string>)

  /** `Object.keys(poll.choices).includes(choice.toString())` */
  predicate IsChoiceKey(poll: Poll, choice: int) {
    exists i :: 0 <= i < |poll.choices| && poll.choices[i].0 == choice
  }

  /** The choice set held by the voter's first stored row, if there is one. */
  function PreviousChoices(previous: seq<VoteRow>): set<int> {
    if |previous| > 0 then ParseScyllaPollVote(previous[0]).choice else {}
  }

  /**
   * The choice list the store path writes for `voter`, or the message it
   * throws. `ownerBlocks` holds the users the note's owner blocks (the
   * owner's `UserBlockingCache`); `previous` is the voter's rows for the note.
   */
  function StoreVote(note: Note, voter: Voter, choice: int, ownerBlocks: set<string>, previous: seq<VoteRow>): (r: Result<seq<int>>)
    ensures r.Ok? ==> note.hasPoll && note.poll.Some? && IsChoiceKey(note.poll.value, choice)
    ensures r.Ok? ==> SetOf(r.value) == PreviousChoices(previous) + {choice} && NoDup(r.value)
    ensures r.Ok? && |previous| > 0 ==> note.poll.value.multiple && choice !in PreviousChoices(previous)
    ensures r == Err(Blocked) ==> note.userId != voter.id && voter.id in ownerBlocks
    ensures r.Err? ==> r.msg in {PollNotFound, InvalidChoice, Blocked, AlreadyVoted}
  {
    if !note.hasPoll || note.poll.None? then Err(PollNotFound)
    else if !IsChoiceKey(note.poll.value, choice) then Err(InvalidChoice)
    else if note.userId != voter.id && voter.id in ownerBlocks then Err(Blocked)
    else if |previous| > 0 then
      if note.poll.value.multiple && choice !in ParseScyllaPollVote(previous[0]).choice then
        AddChoice(previous[0], choice);
        Ok(Distinct(OrElse(previous[0].choice, []) + [choice]))
      else Err(AlreadyVoted)
    else Ok([choice])
  }

  /** Extending a stored choice list by a new choice gives a list without repeats holding the old choices and the new one. */
  lemma AddChoice(row: VoteRow, choice: int)
    requires choice !in ParseScyllaPollVote(row).choice
    ensures var w := Distinct(OrElse(row.choice, []) + [choice]);
      SetOf(w) == ParseScyllaPollVote(row).choice + {choice} && NoDup(w)
  {
    var w := Distinct(OrElse(row.choice, []) + [choice]);
    forall c
      ensures c in SetOf(w) <==> c in ParseScyllaPollVote(row).choice + {choice}
    {
    }
  }

  /** The row `vote` writes when the store path accepts. */
  function VoteRowFor(note: Note, voter: Voter, choices: seq<int>, now: int): (row: VoteRow)
    ensures HasKey(row, note.id, voter.id)
    ensures ParseScyllaPollVote(row).choice == SetOf(choices)
  {
    VoteRow(note.id, voter.id, voter.host, Some(choices), now)
  }

  /** Who receives a `pollVote` notification: the owner, then every watcher except the voter. */
  function Recipients(note: Note, voter: Voter, watchers: seq<string>): (r: seq<string>)
    ensures forall u :: u in r <==> u == note.userId || (u in watchers && u != voter.id)
    ensures |r| > 0 && r[0] == note.userId
  {
    [note.userId] + Filter(watchers, (w: string) => w != voter.id)
  }

  /**
   * The store path of `vote`. `watchers` are the users watching the note;
   * `now` is the clock. On success it answers with the users notified.
   */
  method Vote(table: VoteTable, voter: Voter, note: Note, choice: int, ownerBlocks: set<string>,
              watchers: seq<string>, now: int) returns (r: Result<seq<string>>)
    modifies table
    ensures var d := StoreVote(note, voter, choice, ownerBlocks, VoterRows(old(table.rows), note.id, voter.id));
      && (d.Err? ==> r == Err(d.msg) && table.rows == old(table.rows))
      && (d.Ok? ==> r == Ok(Recipients(note, voter, watchers))
                    && table.rows == Upsert(old(table.rows), VoteRowFor(note, voter, d.value, now)))
  {
    if !note.hasPoll || note.poll.None? {
      return Err(PollNotFound);
    }
    var poll := note.poll.value;
    if !IsChoiceKey(poll, choice) {
      return Err(InvalidChoice);
    }
    if note.userId != voter.id {
      var isBlocking := voter.id in ownerBlocks;
      if isBlocking {
        return Err(Blocked);
      }
    }
    var newChoice: seq<int> := [];
    var result := VoterRows(table.rows, note.id, voter.id);
    if |result| > 0 {
      var vote := ParseScyllaPollVote(result[0]);
      if poll.multiple && choice !in vote.choice {
        newChoice := Distinct(OrElse(result[0].choice, []) + [choice]);
      } else {
        return Err(AlreadyVoted);
      }
    } else {
      newChoice := newChoice + [choice];
    }
    assert newChoice == StoreVote(note, voter, choice, ownerBlocks, result).value;
    table.Insert(VoteRowFor(note, voter, newChoice, now));
    r := Ok([note.userId] + Filter(watchers, (w: string) => w != voter.id));
  }

  /** The checks in order: each message is thrown exactly when its check is the first to fail. */
  lemma StoreVoteErrors(note: Note, voter: Voter, choice: int, ownerBlocks: set<string>, previous: seq<VoteRow>)
    ensures var r := StoreVote(note, voter, choice, ownerBlocks, previous);
      && (r == Err(PollNotFound) <==> !note.hasPoll || note.poll.None?)
      && (r == Err(InvalidChoice) <==> note.hasPoll && note.poll.Some? && !IsChoiceKey(note.poll.value, choice))
      && (r == Err(Blocked) <==> note.hasPoll && note.poll.Some? && IsChoiceKey(note.poll.value, choice)
                                 && note.userId != voter.id && voter.id in ownerBlocks)
      && (r == Err(AlreadyVoted) <==> note.hasPoll && note.poll.Some? && IsChoiceKey(note.poll.value, choice)
                                      && !(note.userId != voter.id && voter.id in ownerBlocks)
                                      && |previous| > 0
                                      && (!note.poll.value.multiple || choice in PreviousChoices(previous)))
  {
  }

  /**
   * Once a vote has been stored, casting it again is refused, and a
   * single-choice poll refuses every further choice.
   */
  lemma VoteOnce(rows: seq<VoteRow>, voter: Voter, note: Note, choice: int, other: int, ownerBlocks: set<string>, now: int)
    requires StoreVote(note, voter, choice, ownerBlocks, VoterRows(rows, note.id, voter.id)).Ok?
    ensures var stored := StoreVote(note, voter, choice, ownerBlocks, VoterRows(rows, note.id, voter.id)).value;
      var after := VoterRows(Upsert(rows, VoteRowFor(note, voter, stored, now)), note.id, voter.id);
      && StoreVote(note, voter, choice, ownerBlocks, after) == Err(AlreadyVoted)
      && (!note.poll.value.multiple ==> StoreVote(note, voter, other, ownerBlocks, after).Err?)
  {
    var stored := StoreVote(note, voter, choice, ownerBlocks, VoterRows(rows, note.id, voter.id)).value;
    UpsertSelects(rows, VoteRowFor(note, voter, stored, now));
  }

  /** A poll of the relational store: choice texts and vote counts by position. */
  datatype PollRecord = PollRecord(noteId: string, expiresAt: Option<int>, multiple: bool, choices: seq<string>, votes: seq<int>)

  /** `UPDATE poll SET votes[choice + 1] = votes[choice + 1] + 1` (one-based in SQL). */
  function Increment(votes: seq<int>, i: int): (r: seq<int>)
    ensures |r| == |votes|
    ensures forall k :: 0 <= k < |r| ==> r[k] == if k == i then votes[k] + 1 else votes[k]
  {
    if 0 <= i < |votes| then votes[i := votes[i] + 1] else votes
  }

  /**
   * The relational path of `vote`: `exist` lists the choices of the voter's
   * existing vote rows. On success: the voter's choices after the insert and
   * the poll's new counters.
   */
  function RelationalVote(poll: Option<PollRecord>, ownerId: string, voter: Voter, choice: int,
                          ownerBlocks: set<string>, exist: seq<int>): (r: Result<(seq<int>, seq<int>)>)
    ensures r.Ok? ==> poll.Some?
    ensures r.Ok? ==> r.value.0 == exist + [choice] && r.value.1 == Increment(poll.value.votes, choice)
    ensures r.Ok? ==> 0 <= choice < |poll.value.choices|
    ensures r.Ok? && poll.value.multiple ==> choice !in exist
    ensures r.Ok? && !poll.value.multiple ==> exist == []
  {
    if poll.None? then Err(PollNotFound)
    else if !(0 <= choice < |poll.value.choices|) then Err(InvalidChoice)
    else if ownerId != voter.id && voter.id in ownerBlocks then Err(Blocked)
    else if poll.value.multiple && choice in exist then Err(AlreadyVoted)
    else if !poll.value.multiple && |exist| != 0 then Err(AlreadyVoted)
    else Ok((exist + [choice], Increment(poll.value.votes, choice)))
  }

  /**
   * The two paths take the same decision when they describe the same poll
   * and the same earlier votes of the voter, and then hold the same choices.
   */
  lemma PathsAgree(note: Note, poll: PollRecord, voter: Voter, choice: int, ownerBlocks: set<string>,
                   previous: seq<VoteRow>, exist: seq<int>)
    requires note.hasPoll && note.poll.Some? && note.poll.value.multiple == poll.multiple
    requires IsChoiceKey(note.poll.value, choice) <==> 0 <= choice < |poll.choices|
    requires |previous| > 0 <==> |exist| > 0
    requires PreviousChoices(previous) == SetOf(exist)
    ensures var s := StoreVote(note, voter, choice, ownerBlocks, previous);
      var q := RelationalVote(Some(poll), note.userId, voter, choice, ownerBlocks, exist);
      && (s.Ok? <==> q.Ok?)
      && (s.Err? ==> q.Err? && s.msg == q.msg)
      && (s.Ok? ==> SetOf(s.value) == SetOf(q.value.0))
  {
    var s := StoreVote(note, voter, choice, ownerBlocks, previous);
    var q := RelationalVote(Some(poll), note.userId, voter, choice, ownerBlocks, exist);
    var p := note.poll.value;
    var held := PreviousChoices(previous);
    assert forall x :: x in exist <==> x in held;
    if !IsChoiceKey(p, choice) {
      assert s == Err(InvalidChoice) && q == Err(InvalidChoice);
    } else if note.userId != voter.id && voter.id in ownerBlocks {
      assert s == Err(Blocked) && q == Err(Blocked);
    } else if |previous| > 0 {
      if p.multiple && choice !in held {
        assert q == Ok((exist + [choice], Increment(poll.votes, choice)));
        assert SetOf(exist + [choice]) == held + {choice};
      } else {
        assert s == Err(AlreadyVoted) && q == Err(AlreadyVoted);
      }
    } else {
      assert exist == [] && exist + [choice] == [choice];
      assert 0 <= choice < |poll.choices| && !(note.userId != voter.id && voter.id in ownerBlocks);
      assert !(poll.multiple && choice in exist) && !(!poll.multiple && |exist| != 0);
      assert q == Ok((exist + [choice], Increment(poll.votes, choice)));
      assert s == Ok([choice]);
    }
  }
}

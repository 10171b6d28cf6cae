/**
 * The poll-end job (`queue/processors/ended-poll-notification.ts`): once a
 * poll closes, its owner and every local voter get one `pollEnded`
 * notification, and the final result is federated unless the note is
 * local-only.
 */
module EndedPoll {
  import opened Common
  import opened ScyllaRows
  import opened PollVotes
  import opened Notifying

  /** `!vote.userHost`: a vote cast by a local account. */
  predicate IsLocalVote(v: Vote) {
    !Truthy(v.userHost)
  }

  function VoterId(v: Vote): string { v.userId }

  /**
   * The voters who are notified: on the store path the authors of the
   * note's votes without a host, on the relational path the result of the
   * query joining local users (`localVoters`).
   */
  function LocalVoters(store: bool, rows: seq<VoteRow>, noteId: string, localVoters: seq<string>): (r: seq<string>)
    ensures store ==> forall u :: u in r <==> exists v :: v in VotesOf(rows, noteId) && IsLocalVote(v) && v.userId == u
    ensures !store ==> r == localVoters
  {
    if store then
      var local := Filter(VotesOf(rows, noteId), IsLocalVote);
      assert forall v :: v in local ==> VoterId(v) in MapSeq(local, VoterId) by {
        forall v | v in local ensures VoterId(v) in MapSeq(local, VoterId) {
          var i :| 0 <= i < |local| && local[i] == v;
          assert MapSeq(local, VoterId)[i] == VoterId(v);
        }
      }
      MapSeq(local, VoterId)
    else localVoters
  }

  /** `new Set(userIds)`: the owner first, then each local voter once. */
  function Recipients(note: Option<Note>, store: bool, rows: seq<VoteRow>, localVoters: seq<string>): (r: seq<string>)
    ensures NoDup(r)
    ensures note.None? || !note.value.hasPoll ==> r == []
    ensures note.Some? && note.value.hasPoll ==>
      |r| > 0 && r[0] == note.value.userId
      && forall u :: u in r <==> u == note.value.userId || u in LocalVoters(store, rows, note.value.id, localVoters)
  {
    if note.None? || !note.value.hasPoll then []
    else
      var ids := [note.value.userId] + LocalVoters(store, rows, note.value.id, localVoters);
      DistinctHead(ids);
      Distinct(ids)
  }

  /** The `data` the job passes to `createNotification`. */
  function EndedData(noteId: string): NotifyData {
    NotifyData(None, None, Some(noteId), None, None, None, None, None, None, None, None)
  }

  /** A `pollEnded` notification names no notifier and no note object, so nothing suppresses it. */
  lemma EndedNeverSuppressed(u: string, noteId: string, look: Lookups, store: bool, id: string, now: int)
    ensures CreateNotification(u, PollEnded, EndedData(noteId), look, store, id, now).Some?
  {
    assert !Suppressed(u, PollEnded, EndedData(noteId), look);
  }

  /** The notifications written for the first `n` recipients, `minted` holding each call's id and time. */
  function EndedWritten(recipients: seq<string>, noteId: string, lookOf: string -> Lookups, store: bool,
                        minted: seq<(string, int)>, n: nat): seq<Created>
    requires n <= |recipients| && n <= |minted|
  {
    if n == 0 then []
    else
      var u := recipients[n - 1];
      var c := CreateNotification(u, PollEnded, EndedData(noteId), lookOf(u), store, minted[n - 1].0, minted[n - 1].1);
      EndedWritten(recipients, noteId, lookOf, store, minted, n - 1) + (if c.Some? then [c.value] else [])
  }

  /**
   * `endedPollNotification`: `note` is the note lookup, `rows` the store's
   * vote rows, `localVoters` the relational query, `lookOf` what
   * `createNotification` reads for a notifiee. Answers whether the question
   * update is delivered.
   */
  method EndedPollNotification(log: NotificationLog, note: Option<Note>, store: bool, rows: seq<VoteRow>,
                               localVoters: seq<string>, lookOf: string -> Lookups,
                               minted: seq<(string, int)>) returns (deliver: bool)
    requires |Recipients(note, store, rows, localVoters)| <= |minted|
    modifies log
    ensures deliver <==> note.Some? && note.value.hasPoll && !note.value.localOnly
    ensures var recipients := Recipients(note, store, rows, localVoters);
      log.written == old(log.written)
        + EndedWritten(recipients, if note.Some? then note.value.id else "", lookOf, store, minted, |recipients|)
  {
    if note.None? || !note.value.hasPoll {
      return false;
    }
    var n := note.value;
    var userIds := [n.userId];
    if store {
      var votes := VotesOf(rows, n.id);
      var localVotes := Filter(votes, IsLocalVote);
      userIds := userIds + MapSeq(localVotes, VoterId);
    } else {
      userIds := userIds + localVoters;
    }
    var recipients := Distinct(userIds);
    assert recipients == Recipients(note, store, rows, localVoters);
    NotifyAll(log, recipients, n.id, lookOf, store, minted);
    deliver := !n.localOnly;
  }

  /** `for (const userId of new Set(userIds)) createNotification(userId, "pollEnded", { noteId })` */
  method NotifyAll(log: NotificationLog, recipients: seq<string>, noteId: string, lookOf: string -> Lookups, store: bool,
                   minted: seq<(string, int)>)
    requires |recipients| <= |minted|
    modifies log
    ensures log.written == old(log.written) + EndedWritten(recipients, noteId, lookOf, store, minted, |recipients|)
  {
    ghost var start := log.written;
    for i := 0 to |recipients|
      invariant log.written == start + EndedWritten(recipients, noteId, lookOf, store, minted, i)
    {
      EndedNeverSuppressed(recipients[i], noteId, lookOf(recipients[i]), store, minted[i].0, minted[i].1);
      var _ := log.Notify(recipients[i], PollEnded, EndedData(noteId), lookOf(recipients[i]), store, minted[i].0, minted[i].1);
    }
  }

  /** Every vote `u` cast on the note carries the `anonymous` host of a catch-up vote. */
  predicate AllAnonymous(votes: seq<Vote>, u: string) {
    forall w :: w in votes && w.userId == u ==> w.userHost == Some("anonymous")
  }

  /** The recipients written for, in order: one notification per recipient. */
  lemma {:induction false} EndedTargets(recipients: seq<string>, noteId: string, lookOf: string -> Lookups, store: bool,
                                        minted: seq<(string, int)>, n: nat)
    requires n <= |recipients| && n <= |minted|
    ensures MapSeq(EndedWritten(recipients, noteId, lookOf, store, minted, n), Target) == recipients[..n]
  {
    if n > 0 {
      EndedTargets(recipients, noteId, lookOf, store, minted, n - 1);
      var u := recipients[n - 1];
      EndedNeverSuppressed(u, noteId, lookOf(u), store, minted[n - 1].0, minted[n - 1].1);
      var c := CreateNotification(u, PollEnded, EndedData(noteId), lookOf(u), store, minted[n - 1].0, minted[n - 1].1);
      MapAppend(EndedWritten(recipients, noteId, lookOf, store, minted, n - 1), [c.value], Target);
      assert recipients[..n] == recipients[..n - 1] + [u];
    }
  }

  /**
   * Each user is notified exactly once when they own the poll or cast a
   * local vote, and not at all otherwise; the anonymous votes the store
   * path inserts for remote counts are never notified.
   */
  lemma NotifiedOnce(note: Note, store: bool, rows: seq<VoteRow>, localVoters: seq<string>, lookOf: string -> Lookups,
                     minted: seq<(string, int)>)
    requires note.hasPoll
    requires |Recipients(Some(note), store, rows, localVoters)| <= |minted|
    ensures var recipients := Recipients(Some(note), store, rows, localVoters);
      var targets := MapSeq(EndedWritten(recipients, note.id, lookOf, store, minted, |recipients|), Target);
      && NoDup(targets)
      && (forall u :: u in targets <==> u == note.userId || u in LocalVoters(store, rows, note.id, localVoters))
      && (store ==> forall u :: u != note.userId && AllAnonymous(VotesOf(rows, note.id), u) ==> u !in targets)
  {
    var recipients := Recipients(Some(note), store, rows, localVoters);
    EndedTargets(recipients, note.id, lookOf, store, minted, |recipients|);
    assert recipients[..|recipients|] == recipients;
  }
}

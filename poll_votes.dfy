/**
 * The `poll_vote` table of the wide-column store: one row per (note, voter),
 * holding the set of choice indexes that voter picked. Voting, remote
 * question reconciliation, the ActivityPub renderers and the poll-end job all
 * read it through `prepared.poll.select` and write it through
 * `prepared.poll.insert`, which (being a Cassandra INSERT) replaces a row
 * with the same key.
 */
module PollVotes {
  import opened Common
  import opened ScyllaRows

  /** The row's primary key is `(noteId, userId)`. */
  predicate HasKey(row: VoteRow, noteId: string, userId: string) {
    row.noteId == noteId && row.userId == userId
  }

  function KeyIs(noteId: string, userId: string): VoteRow -> bool {
    (row: VoteRow) => HasKey(row, noteId, userId)
  }

  function KeyIsNot(noteId: string, userId: string): VoteRow -> bool {
    (row: VoteRow) => !HasKey(row, noteId, userId)
  }

  function OfNote(noteId: string): VoteRow -> bool {
    (row: VoteRow) => row.noteId == noteId
  }

  /** No two rows share a primary key. */
  predicate KeysUnique(rows: seq<VoteRow>) {
    forall i, j :: 0 <= i < j < |rows| ==> !HasKey(rows[j], rows[i].noteId, rows[i].userId)
  }

  /**
   * `prepared.poll.insert`: the row replaces any row with its key. Only the
   * order of the rows left in place matters here, not where the new row ends
   * up; it goes last.
   */
  function Upsert(rows: seq<VoteRow>, row: VoteRow): seq<VoteRow>
    decreases |rows|
  {
    if |rows| == 0 then [row]
    else if HasKey(rows[0], row.noteId, row.userId) then Upsert(rows[1..], row)
    else [rows[0]] + Upsert(rows[1..], row)
  }

  /** The insert keeps every row under another key, in order, and appends the row. */
  lemma {:induction false} UpsertIsFilter(rows: seq<VoteRow>, row: VoteRow)
    ensures Upsert(rows, row) == Filter(rows, KeyIsNot(row.noteId, row.userId)) + [row]
    decreases |rows|
  {
    if |rows| > 0 {
      UpsertIsFilter(rows[1..], row);
    }
  }

  /** After the insert the table holds the row and every row under another key, and nothing else. */
  lemma UpsertMembers(rows: seq<VoteRow>, row: VoteRow)
    ensures forall x :: x in Upsert(rows, row) <==> x == row || (x in rows && !HasKey(x, row.noteId, row.userId))
  {
    UpsertIsFilter(rows, row);
  }

  /** `prepared.poll.select` for one note, decoded by `parseScyllaPollVote`. */
  function VotesOf(rows: seq<VoteRow>, noteId: string): (r: seq<Vote>)
    ensures forall i :: 0 <= i < |r| ==> r[i].noteId == noteId
  {
    MapSeq(Filter(rows, OfNote(noteId)), ParseScyllaPollVote)
  }

  /** `prepared.poll.select` with `AND "userId" = ?`: the voter's own rows. */
  function VoterRows(rows: seq<VoteRow>, noteId: string, userId: string): (r: seq<VoteRow>)
    ensures forall x :: x in r <==> x in rows && HasKey(x, noteId, userId)
  {
    Filter(rows, KeyIs(noteId, userId))
  }

  function HasChoice(index: int): Vote -> bool {
    (v: Vote) => index in v.choice
  }

  /** `votes.filter((vote) => vote.choice.has(index)).length` */
  function Tally(votes: seq<Vote>, index: int): (r: nat)
    ensures r <= |votes|
  {
    |Filter(votes, HasChoice(index))|
  }

  lemma {:induction false} TallyAppend(a: seq<Vote>, b: seq<Vote>, index: int)
    ensures Tally(a + b, index) == Tally(a, index) + Tally(b, index)
  {
    FilterAppend(a, b, HasChoice(index));
  }

  /** After an upsert the key selects exactly the written row. */
  lemma UpsertSelects(rows: seq<VoteRow>, row: VoteRow)
    ensures VoterRows(Upsert(rows, row), row.noteId, row.userId) == [row]
  {
    UpsertIsFilter(rows, row);
    var kept := Filter(rows, KeyIsNot(row.noteId, row.userId));
    FilterAppend(kept, [row], KeyIs(row.noteId, row.userId));
    FilterNone(kept, KeyIs(row.noteId, row.userId));
  }

  /** An upsert keeps the primary key unique. */
  lemma UpsertKeepsUnique(rows: seq<VoteRow>, row: VoteRow)
    requires KeysUnique(rows)
    ensures KeysUnique(Upsert(rows, row))
  {
    UpsertIsFilter(rows, row);
    var kept := Filter(rows, KeyIsNot(row.noteId, row.userId));
    FilterIsSubseq(rows, KeyIsNot(row.noteId, row.userId));
    SubseqUnique(kept, rows);
    var r := kept + [row];
    forall i, j | 0 <= i < j < |r|
      ensures !HasKey(r[j], r[i].noteId, r[i].userId)
    {
      if j == |kept| {
        assert r[i] in kept;
      }
    }
  }

  lemma {:induction false} SubseqUnique(a: seq<VoteRow>, b: seq<VoteRow>)
    requires IsSubseq(a, b) && KeysUnique(b)
    ensures KeysUnique(a)
    decreases |b|
  {
    if |a| > 0 {
      if a[0] == b[0] && IsSubseq(a[1..], b[1..]) {
        SubseqUnique(a[1..], b[1..]);
        SubseqMembers(a[1..], b[1..]);
        forall j | 0 < j < |a|
          ensures !HasKey(a[j], a[0].noteId, a[0].userId)
        {
          assert a[j] == a[1..][j - 1];
          assert a[j] in a[1..];
          assert a[j] in b[1..];
          var k :| 0 <= k < |b[1..]| && b[1..][k] == a[j];
          assert b[k + 1] == a[j];
        }
      } else {
        SubseqUnique(a, b[1..]);
      }
    }
  }

  /**
   * Writing a row under a key the table does not hold yet raises the tally of
   * each choice in the row's set by one, on that note only.
   */
  lemma UpsertTallyFresh(rows: seq<VoteRow>, row: VoteRow, noteId: string, index: int)
    requires VoterRows(rows, row.noteId, row.userId) == []
    ensures Tally(VotesOf(Upsert(rows, row), noteId), index)
         == Tally(VotesOf(rows, noteId), index)
          + (if row.noteId == noteId && index in ParseScyllaPollVote(row).choice then 1 else 0)
  {
    UpsertIsFilter(rows, row);
    var p := KeyIsNot(row.noteId, row.userId);
    forall x | x in rows ensures p(x) {
      assert x !in VoterRows(rows, row.noteId, row.userId);
    }
    FilterAll(rows, p);
    FilterAppend(rows, [row], OfNote(noteId));
    MapAppend(Filter(rows, OfNote(noteId)), Filter([row], OfNote(noteId)), ParseScyllaPollVote);
    TallyAppend(VotesOf(rows, noteId), MapSeq(Filter([row], OfNote(noteId)), ParseScyllaPollVote), index);
  }

  /** The rows of the store's `poll_vote` table, written one statement at a time. */
  class VoteTable {
    var rows: seq<VoteRow>

    constructor (rows: seq<VoteRow>)
      ensures this.rows == rows
    {
      this.rows := rows;
    }

    /** `prepared.poll.insert` */
    method Insert(row: VoteRow)
      modifies this
      ensures rows == Upsert(old(rows), row)
    {
      rows := Upsert(rows, row);
    }
  }
}

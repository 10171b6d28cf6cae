/**
 * The refetch loop the hybrid and local timelines share
 * (server/api/endpoints/notes/hybrid-timeline.ts, local-timeline.ts).
 * Each round asks the store for a batch of notes older than `untilDate`,
 * cut to one and a half times the limit; the batch is packed and appended,
 * a batch shorter than the limit ends the loop, and otherwise `untilDate`
 * moves to the batch's oldest note. The answer is the first `limit` packed
 * notes. Packing (`Notes.packMany`) is a function parameter, and the batch
 * of one round is a function of the cursor.
 */
module Refetch {
  import opened Common
  import opened ScyllaRows
  import opened Pagination
  import opened PaginationProofs

  /** The signed-in account as the endpoints read it. */
  datatype Viewer = Viewer(id: string, isAdmin: bool, isModerator: bool)

  function ViewerId(viewer: Option<Viewer>): Option<string> {
    if viewer.Some? then Some(viewer.value.id) else None
  }

  /** A timeline the instance disabled is refused unless the viewer is signed in as an admin or a moderator. */
  predicate TimelineOff(disabled: bool, viewer: Option<Viewer>) {
    disabled && (viewer.None? || !(viewer.value.isAdmin || viewer.value.isModerator))
  }

  /** `config.scylla.queryLimit`, a positive row count. */
  type Positive = x: int | x > 0 witness 1

  /**
   * What every call of `execPaginationQuery` reads besides its table: the
   * clock, `getTimestamp` (the time encoded in an id), the rows fetched per
   * page and the partition bound.
   */
  datatype Engine = Engine(now: int, getTimestamp: string -> int, queryLimit: Positive, maxPartitions: int)

  /**
   * A decoded row of a page the store returns: it passes the feed's filter
   * and comes from a table row older than the page's cursor, under the
   * feed's key.
   */
  lemma PageNote<R(!new), E>(f: Feed<R, E>, kind: FeedKind, pp: PageParams, userId: Option<string>, e: Engine, n: E)
    requires var r := Paginate(f, kind, pp, userId, e.now, e.getTimestamp, true, e.queryLimit, e.maxPartitions);
      r.Ok? && n in MapSeq(r.value.rows, f.decode)
    ensures f.keep(n) && n in MapSeq(f.table, f.decode)
    ensures exists row :: (row in f.table && f.decode(row) == n && f.stamp(row) < ResolveUntil(pp, e.now, e.getTimestamp)
      && (kind != ListFeed && Keyed(StatementFor(kind)) ==> f.key(row) == KeyValue(kind, pp, userId)))
  {
    var r := Paginate(f, kind, pp, userId, e.now, e.getTimestamp, true, e.queryLimit, e.maxPartitions);
    PaginateSound(f, kind, pp, userId, e.now, e.getTimestamp, e.queryLimit, e.maxPartitions);
    var i :| 0 <= i < |r.value.rows| && MapSeq(r.value.rows, f.decode)[i] == n;
    var row := r.value.rows[i];
    MapSeqMembers(f.table, f.decode, n);
  }

  function CreatedAt(n: Note): int { n.createdAt }

  function RowCreatedAt(r: NoteRow): int { r.createdAt }

  /** The notes of a page cut by `slice(0, limit)` are decoded table rows older than the cursor that the closure keeps. */
  lemma SlicedNotesKept(f: Feed<NoteRow, Note>, kind: FeedKind, pp: PageParams, userId: Option<string>, e: Engine, limit: int)
    requires f.stamp == RowCreatedAt && f.decode == ParseScyllaNote
    ensures var r := Paginate(f, kind, pp, userId, e.now, e.getTimestamp, true, e.queryLimit, e.maxPartitions);
      r.Ok? ==> forall n :: n in JsSlice(MapSeq(r.value.rows, ParseScyllaNote), 0, limit) ==>
        f.keep(n) && n in MapSeq(f.table, ParseScyllaNote) && n.createdAt < ResolveUntil(pp, e.now, e.getTimestamp)
  {
    var r := Paginate(f, kind, pp, userId, e.now, e.getTimestamp, true, e.queryLimit, e.maxPartitions);
    if r.Ok? {
      forall n | n in JsSlice(MapSeq(r.value.rows, ParseScyllaNote), 0, limit)
        ensures f.keep(n) && n in MapSeq(f.table, ParseScyllaNote) && n.createdAt < ResolveUntil(pp, e.now, e.getTimestamp)
      {
        PageNote(f, kind, pp, userId, e, n);
      }
    }
  }

  /** Outside the list feed and over a table in clustering order, a page cut by `slice(0, limit)` is newest first. */
  lemma SlicedNotesSorted(f: Feed<NoteRow, Note>, kind: FeedKind, pp: PageParams, userId: Option<string>, e: Engine, limit: int)
    requires f.stamp == RowCreatedAt && f.decode == ParseScyllaNote
    requires kind != ListFeed && SortedDesc(f.table, RowCreatedAt)
    ensures var r := Paginate(f, kind, pp, userId, e.now, e.getTimestamp, true, e.queryLimit, e.maxPartitions);
      r.Ok? ==> SortedDesc(JsSlice(MapSeq(r.value.rows, ParseScyllaNote), 0, limit), CreatedAt)
  {
    var r := Paginate(f, kind, pp, userId, e.now, e.getTimestamp, true, e.queryLimit, e.maxPartitions);
    if r.Ok? {
      var page := MapSeq(r.value.rows, ParseScyllaNote);
      var out := JsSlice(page, 0, limit);
      assert out == page[..|out|];
      PaginateSound(f, kind, pp, userId, e.now, e.getTimestamp, e.queryLimit, e.maxPartitions);
      SortedMapTake(r.value.rows, ParseScyllaNote, RowCreatedAt, CreatedAt, |r.value.rows|);
      assert Take(page, |r.value.rows|) == page;
    }
  }

  /** The key of a `home_timeline` row: whose timeline it is on. */
  function FeedOwner(r: NoteRow): string { OrElse(r.feedUserId, "") }

  /** The key of a view that binds no key column. */
  function Unkeyed(r: NoteRow): string { "" }

  /** The key of the by-user view: the author. */
  function RowAuthor(r: NoteRow): string { r.userId }

  /** `ps.limit * 1.5` as `slice` reads it: the product truncated toward zero. */
  function HalfAgain(limit: int): (r: int)
    ensures limit >= 0 ==> limit <= r && 2 * r <= 3 * limit < 2 * r + 2
    ensures limit < 0 ==> r <= 0 && 2 * -r <= 3 * -limit < 2 * -r + 2
  {
    if limit >= 0 then limit * 3 / 2 else -((-limit) * 3 / 2)
  }

  /** One round's cut: the first `limit * 1.5` notes of the batch. */
  function Cut(notes: seq<Note>, limit: int): (r: seq<Note>)
    ensures forall x :: x in r ==> x in notes
    ensures limit >= 0 ==> r == Take(notes, HalfAgain(limit))
    ensures limit >= 0 ==> |r| == Min(HalfAgain(limit), |notes|)
    ensures |r| <= |notes| && r == notes[..|r|]
  {
    if limit >= 0 then
      JsSliceFront(notes, HalfAgain(limit));
      JsSlice(notes, 0, HalfAgain(limit))
    else JsSlice(notes, 0, HalfAgain(limit))
  }

  /** The cursor the next round starts from: the last (oldest) note's time. */
  function Oldest(b: seq<Note>): int
    requires |b| > 0
  {
    b[|b| - 1].createdAt
  }

  /**
   * What the loop needs of its batches to end: every note of a batch is one
   * of `universe` and has a non-zero timestamp, and a truthy `untilDate`
   * bounds its batch strictly. A note stamped 0 would make `untilDate`
   * falsy and restart the scan from the newest note.
   */
  ghost predicate Bounded(batchOf: Option<int> -> Result<seq<Note>>, universe: seq<Note>) {
    forall d: Option<int>, n: Note :: batchOf(d).Ok? && n in batchOf(d).value ==>
      n in universe && n.createdAt != 0 && (d.Some? && d.value != 0 ==> n.createdAt < d.value)
  }

  /** Every row of a table has a non-zero timestamp. */
  predicate NonZeroStamps(rows: seq<NoteRow>) {
    forall r :: r in rows ==> r.createdAt != 0
  }

  /** How many notes of the universe the cursor still has ahead of it. */
  function Remaining(universe: seq<Note>, d: Option<int>): nat {
    if d.Some? && d.value != 0 then CountBelow(universe, CreatedAt, d.value) else |universe| + 1
  }

  /** Moving the cursor to the oldest note of a non-empty batch leaves fewer notes ahead. */
  lemma NextCursorDrops(batchOf: Option<int> -> Result<seq<Note>>, universe: seq<Note>, d: Option<int>, b: seq<Note>)
    requires Bounded(batchOf, universe)
    requires batchOf(d) == Ok(b) && |b| > 0
    ensures Oldest(b) != 0
    ensures Remaining(universe, Some(Oldest(b))) < Remaining(universe, d)
  {
    var n := b[|b| - 1];
    assert n in batchOf(d).value;
    if d.Some? && d.value != 0 {
      CountBelowStrict(universe, CreatedAt, n.createdAt, d.value, n);
    } else {
      CountBelowLen(universe, CreatedAt, n.createdAt);
    }
  }

  /** The packed notes once the loop has ended, from cursor `d` with `found` packed so far. */
  function Rounds<P>(batchOf: Option<int> -> Result<seq<Note>>, pack: seq<Note> -> seq<P>, limit: int,
                     d: Option<int>, found: seq<P>, universe: seq<Note>): Result<seq<P>>
    requires Bounded(batchOf, universe)
    decreases Remaining(universe, d)
  {
    if |found| >= limit then Ok(found)
    else
      var b := batchOf(d);
      if b.Err? then Err(b.msg)
      else if |b.value| < limit then Ok(found + pack(b.value))
      else
        NextCursorDrops(batchOf, universe, d, b.value);
        Rounds(batchOf, pack, limit, Some(Oldest(b.value)), found + pack(b.value), universe)
  }

  /** One pass of the loop body: the round's error ends the loop, a short batch is the last, a full one moves the cursor back. */
  lemma RoundsStep<P>(batchOf: Option<int> -> Result<seq<Note>>, pack: seq<Note> -> seq<P>, limit: int,
                      d: Option<int>, found: seq<P>, universe: seq<Note>, b: Result<seq<Note>>)
    requires Bounded(batchOf, universe)
    requires |found| < limit && batchOf(d) == b
    ensures b.Err? ==> Rounds(batchOf, pack, limit, d, found, universe) == Err(b.msg)
    ensures b.Ok? && |b.value| < limit ==> Rounds(batchOf, pack, limit, d, found, universe) == Ok(found + pack(b.value))
    ensures b.Ok? && |b.value| >= limit ==>
      |b.value| > 0
      && Remaining(universe, Some(Oldest(b.value))) < Remaining(universe, d)
      && Rounds(batchOf, pack, limit, d, found, universe)
         == Rounds(batchOf, pack, limit, Some(Oldest(b.value)), found + pack(b.value), universe)
  {
    if b.Ok? && |b.value| >= limit {
      NextCursorDrops(batchOf, universe, d, b.value);
    }
  }

  /** `foundPacked.slice(0, ps.limit)` after the loop, starting from the request's `untilDate`. */
  function Refetched<P>(batchOf: Option<int> -> Result<seq<Note>>, pack: seq<Note> -> seq<P>, limit: int,
                        start: Option<int>, universe: seq<Note>): (r: Result<seq<P>>)
    requires Bounded(batchOf, universe)
    ensures r.Ok? ==> |r.value| <= Max(limit, 0)
  {
    var s := Rounds(batchOf, pack, limit, start, [], universe);
    if s.Err? then Err(s.msg) else Ok(Take(s.value, limit))
  }

  // ---------------------------------------------------------------------
  // The batches the loop consumes

  /** The batches fetched from cursor `d` on, in order, up to the first failing round. */
  function Batches<P>(batchOf: Option<int> -> Result<seq<Note>>, pack: seq<Note> -> seq<P>, limit: int,
                      d: Option<int>, found: seq<P>, universe: seq<Note>): seq<seq<Note>>
    requires Bounded(batchOf, universe)
    decreases Remaining(universe, d)
  {
    if |found| >= limit then []
    else
      var b := batchOf(d);
      if b.Err? then []
      else if |b.value| < limit then [b.value]
      else
        NextCursorDrops(batchOf, universe, d, b.value);
        [b.value] + Batches(batchOf, pack, limit, Some(Oldest(b.value)), found + pack(b.value), universe)
  }

  function PackEach<P>(bs: seq<seq<Note>>, pack: seq<Note> -> seq<P>): seq<P> {
    if |bs| == 0 then [] else pack(bs[0]) + PackEach(bs[1..], pack)
  }

  /** Without an error, the loop's output is what it had plus each fetched batch packed, in order. */
  lemma {:induction false} RoundsPackBatches<P>(batchOf: Option<int> -> Result<seq<Note>>, pack: seq<Note> -> seq<P>,
                                               limit: int, d: Option<int>, found: seq<P>, universe: seq<Note>)
    requires Bounded(batchOf, universe)
    ensures var r := Rounds(batchOf, pack, limit, d, found, universe);
      r.Ok? ==> r.value == found + PackEach(Batches(batchOf, pack, limit, d, found, universe), pack)
    decreases Remaining(universe, d)
  {
    if |found| < limit {
      var b := batchOf(d);
      if b.Ok? {
        if |b.value| < limit {
          assert PackEach([b.value], pack) == pack(b.value) + PackEach([], pack);
        } else {
          NextCursorDrops(batchOf, universe, d, b.value);
          var rest := Batches(batchOf, pack, limit, Some(Oldest(b.value)), found + pack(b.value), universe);
          RoundsPackBatches(batchOf, pack, limit, Some(Oldest(b.value)), found + pack(b.value), universe);
          assert ([b.value] + rest)[1..] == rest;
        }
      }
    }
  }

  /** Every note of every round is older than `u`. */
  ghost predicate AllBelow(bs: seq<seq<Note>>, u: int) {
    forall k: int, y: Note :: 0 <= k < |bs| && y in bs[k] ==> y.createdAt < u
  }

  /** Every note fetched from a truthy cursor on is older than the cursor. */
  lemma {:induction false} BatchesBelow<P>(batchOf: Option<int> -> Result<seq<Note>>, pack: seq<Note> -> seq<P>,
                                          limit: int, d: Option<int>, found: seq<P>, universe: seq<Note>)
    requires Bounded(batchOf, universe)
    requires d.Some? && d.value != 0
    ensures AllBelow(Batches(batchOf, pack, limit, d, found, universe), d.value)
    decreases Remaining(universe, d)
  {
    var bs := Batches(batchOf, pack, limit, d, found, universe);
    if |found| < limit {
      var b := batchOf(d);
      if b.Ok? && |b.value| >= limit {
        NextCursorDrops(batchOf, universe, d, b.value);
        var c := Oldest(b.value);
        assert b.value[|b.value| - 1] in batchOf(d).value;
        BatchesBelow(batchOf, pack, limit, Some(c), found + pack(b.value), universe);
        forall k: int, y: Note | 0 <= k < |bs| && y in bs[k]
          ensures y.createdAt < d.value
        {
          if k > 0 {
            assert bs[k] == Batches(batchOf, pack, limit, Some(c), found + pack(b.value), universe)[k - 1];
          } else {
            assert y in batchOf(d).value;
          }
        }
      } else if b.Ok? {
        forall k: int, y: Note | 0 <= k < |bs| && y in bs[k]
          ensures y.createdAt < d.value
        {
          assert y in batchOf(d).value;
        }
      }
    }
  }

  /** Across rounds, every note of a later round is strictly older than every note of an earlier one. */
  ghost predicate OlderRounds(bs: seq<seq<Note>>) {
    forall i: int, j: int, x: Note, y: Note :: 0 <= i < j < |bs| && x in bs[i] && y in bs[j] ==> y.createdAt < x.createdAt
  }

  /** A newest-first batch followed by rounds below its oldest note keeps the rounds ordered. */
  lemma OlderCons(b: seq<Note>, rest: seq<seq<Note>>)
    requires |b| > 0 && SortedDesc(b, CreatedAt) && OlderRounds(rest)
    requires AllBelow(rest, Oldest(b))
    ensures OlderRounds([b] + rest)
  {
    var bs := [b] + rest;
    LastIsMinimum(b, CreatedAt);
    forall i: int, j: int, x: Note, y: Note | 0 <= i < j < |bs| && x in bs[i] && y in bs[j]
      ensures y.createdAt < x.createdAt
    {
      assert bs[j] == rest[j - 1];
      if i > 0 {
        assert bs[i] == rest[i - 1];
      } else {
        var m :| 0 <= m < |b| && b[m] == x;
        assert CreatedAt(x) >= CreatedAt(b[|b| - 1]);
      }
    }
  }

  /**
   * With every batch newest first, each round's notes are strictly older
   * than every note of the rounds before it: no note is fetched twice, and
   * the rounds walk back in time.
   */
  lemma {:induction false} BatchesOlder<P>(batchOf: Option<int> -> Result<seq<Note>>, pack: seq<Note> -> seq<P>,
                                          limit: int, d: Option<int>, found: seq<P>, universe: seq<Note>)
    requires Bounded(batchOf, universe)
    requires forall e :: batchOf(e).Ok? ==> SortedDesc(batchOf(e).value, CreatedAt)
    ensures OlderRounds(Batches(batchOf, pack, limit, d, found, universe))
    decreases Remaining(universe, d)
  {
    if |found| < limit {
      var b := batchOf(d);
      if b.Ok? && |b.value| >= limit {
        NextCursorDrops(batchOf, universe, d, b.value);
        var c := Oldest(b.value);
        var rest := Batches(batchOf, pack, limit, Some(c), found + pack(b.value), universe);
        BatchesBelow(batchOf, pack, limit, Some(c), found + pack(b.value), universe);
        BatchesOlder(batchOf, pack, limit, Some(c), found + pack(b.value), universe);
        OlderCons(b.value, rest);
      }
    }
  }

  /** A first batch shorter than the limit is the only round. */
  lemma ShortBatchIsLast<P>(batchOf: Option<int> -> Result<seq<Note>>, pack: seq<Note> -> seq<P>, limit: int,
                            start: Option<int>, universe: seq<Note>)
    requires Bounded(batchOf, universe)
    requires limit > 0 && batchOf(start).Ok? && |batchOf(start).value| < limit
    ensures Batches(batchOf, pack, limit, start, [], universe) == [batchOf(start).value]
    ensures Refetched(batchOf, pack, limit, start, universe) == Ok(Take(pack(batchOf(start).value), limit))
  {
    assert [] + pack(batchOf(start).value) == pack(batchOf(start).value);
  }
}

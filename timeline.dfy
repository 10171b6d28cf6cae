/**
 * The store branch of the home timeline (server/api/endpoints/notes/timeline.ts):
 * a day-by-day sweep of the `note` table, fifty rows at a time below a
 * cursor, keeping the notes by the viewer and the users they follow, then
 * the channel and reply filters. A page that comes back empty counts one
 * partition and moves the cursor to the end of the previous day; the sweep
 * gives up after thirty such pages.
 */
module HomeTimeline {
  import opened Common
  import opened ScyllaRows
  import opened NoteFilters
  import opened Pagination
  import opened Refetch

  /** `scanned_partitions < 30` */
  const MaxEmptyPages := 30

  /** `LIMIT 50`, fixed in the prepared statement. */
  const PageRows := 50

  /** The request parameters the store branch reads. */
  datatype TimelineParams = TimelineParams(limit: int, untilId: Option<string>, withReplies: bool)

  /** The `note` table under `byDate`: one UTC day, below the cursor, newest first. */
  function NoteTable(rows: seq<NoteRow>): Feed<NoteRow, Note> {
    Feed(rows, RowCreatedAt, Unkeyed, ParseScyllaNote, (n: Note) => true)
  }

  /** One execution of `byDate AND "createdAt" < ? LIMIT 50`, both markers bound to `until`. */
  function DayPage(rows: seq<NoteRow>, until: int): seq<NoteRow> {
    Page(NoteTable(rows), NoteByDate, "", until, None, PageRows)
  }

  /** `[user.id].concat(followings)` */
  function ValidIds(me: string, rel: NoteRelations): seq<string> {
    [me] + rel.followingUserIds
  }

  function AuthorPred(ids: seq<string>): Note -> bool {
    (n: Note) => n.userId in ids
  }

  /** What one page contributes: authors in `validIds`, then `filterChannel` and `filterReply`. */
  function Kept(notes: seq<Note>, me: string, rel: NoteRelations, withReplies: bool): seq<Note> {
    var byAuthor := Filter(notes, AuthorPred(ValidIds(me, rel)));
    FilterReply(FilterChannel(byAuthor, Some(me), rel.followingChannelIds), withReplies, Some(me))
  }

  /** What `Kept` asks of one note. */
  predicate TimelineKeep(n: Note, me: string, rel: NoteRelations, withReplies: bool) {
    n.userId in ValidIds(me, rel) && ChannelVisible(n, Some(me), rel.followingChannelIds)
    && ReplyVisible(n, withReplies, Some(me))
  }

  /** The sweep's variables: the cursor, the empty pages so far, the notes found. */
  datatype Sweep = Sweep(until: int, scanned: int, found: seq<Note>)

  /**
   * One pass of the loop body from state `s`; `prev` is how an empty page
   * moves the cursor (the model uses `EndOfPreviousDay`;
   * `LocalEndOfPreviousDay` is the code as written). An empty page counts
   * one more partition; any other page moves the cursor to its oldest row,
   * so fewer table rows remain below it, and adds what `Kept` lets through.
   */
  function Advance(rows: seq<NoteRow>, me: string, rel: NoteRelations, withReplies: bool, prev: int -> int, s: Sweep): (r: Sweep)
    ensures (r.scanned == s.scanned + 1 && r.found == s.found && r.until == prev(s.until))
      || (r.scanned == s.scanned && r.until < s.until
          && CountBelow(rows, RowCreatedAt, r.until) < CountBelow(rows, RowCreatedAt, s.until)
          && r.found == s.found + Kept(MapSeq(DayPage(rows, s.until), ParseScyllaNote), me, rel, withReplies))
  {
    var page := DayPage(rows, s.until);
    if |page| == 0 then Sweep(prev(s.until), s.scanned + 1, s.found)
    else
      var notes := MapSeq(page, ParseScyllaNote);
      var last := page[|page| - 1];
      assert last in rows && last.createdAt < s.until;
      CountBelowStrict(rows, RowCreatedAt, last.createdAt, s.until, last);
      Sweep(last.createdAt, s.scanned, s.found + Kept(notes, me, rel, withReplies))
  }

  /** `while (foundNotes.length < ps.limit && scanned_partitions < 30)` from state `s`. */
  function RunSweep(rows: seq<NoteRow>, me: string, rel: NoteRelations, ps: TimelineParams, prev: int -> int, s: Sweep): Sweep
    decreases MaxEmptyPages - s.scanned, CountBelow(rows, RowCreatedAt, s.until)
  {
    if !(|s.found| < ps.limit && s.scanned < MaxEmptyPages) then s
    else RunSweep(rows, me, rel, ps, prev, Advance(rows, me, rel, ps.withReplies, prev, s))
  }

  /** One round of the loop: the day page, the decode, the three filters, the cursor. */
  method SweepRound(rows: seq<NoteRow>, me: string, rel: NoteRelations, withReplies: bool, s: Sweep) returns (r: Sweep)
    ensures r == Advance(rows, me, rel, withReplies, EndOfPreviousDay, s)
  {
    var validIds := ValidIds(me, rel);
    var result := DayPage(rows, s.until);
    if |result| == 0 {
      return Sweep(EndOfPreviousDay(s.until), s.scanned + 1, s.found);
    }
    var notes := MapSeq(result, ParseScyllaNote);
    var filtered := Filter(notes, AuthorPred(validIds));
    filtered := FilterChannel(filtered, Some(me), rel.followingChannelIds);
    filtered := FilterReply(filtered, withReplies, Some(me));
    r := Sweep(notes[|notes| - 1].createdAt, s.scanned, s.found + filtered);
  }

  /** The starting cursor: the time in `untilId`, else now; `untilDate` is not read. */
  function StartCursor(ps: TimelineParams, now: int, getTimestamp: string -> int): int {
    if Truthy(ps.untilId) then getTimestamp(ps.untilId.value) else now
  }

  /** The notes the sweep finds, moving to the previous UTC day on an empty page. */
  function TimelineFound(rows: seq<NoteRow>, me: string, rel: NoteRelations, ps: TimelineParams, now: int,
                         getTimestamp: string -> int): Sweep {
    RunSweep(rows, me, rel, ps, EndOfPreviousDay, Sweep(StartCursor(ps, now, getTimestamp), 0, []))
  }

  /** `Notes.packMany(foundNotes.slice(0, ps.limit), user)` */
  function TimelineResult<P>(rows: seq<NoteRow>, me: string, rel: NoteRelations, ps: TimelineParams, now: int,
                             getTimestamp: string -> int, pack: seq<Note> -> seq<P>): seq<P> {
    pack(JsSlice(TimelineFound(rows, me, rel, ps, now, getTimestamp).found, 0, ps.limit))
  }

  /**
   * The endpoint's store branch: `rel` holds the viewer's local followings
   * and followed channels (the caches), `pack` is `Notes.packMany`.
   */
  method TimelineStore<P>(ps: TimelineParams, me: string, rel: NoteRelations, rows: seq<NoteRow>, now: int,
                          getTimestamp: string -> int, pack: seq<Note> -> seq<P>) returns (r: seq<P>)
    ensures r == TimelineResult(rows, me, rel, ps, now, getTimestamp, pack)
  {
    var untilDate := now;
    if Truthy(ps.untilId) {
      untilDate := getTimestamp(ps.untilId.value);
    }
    var s := Sweep(untilDate, 0, []);
    while |s.found| < ps.limit && s.scanned < MaxEmptyPages
      invariant 0 <= s.scanned <= MaxEmptyPages
      invariant RunSweep(rows, me, rel, ps, EndOfPreviousDay, s) == TimelineFound(rows, me, rel, ps, now, getTimestamp)
      decreases MaxEmptyPages - s.scanned, CountBelow(rows, RowCreatedAt, s.until)
    {
      s := SweepRound(rows, me, rel, ps.withReplies, s);
    }
    var foundNotes := s.found;
    r := pack(JsSlice(foundNotes, 0, ps.limit));
  }

  // ---------------------------------------------------------------------
  // Properties of the sweep

  /** `Kept` is one filter by `TimelineKeep`. */
  lemma KeptIsFilter(notes: seq<Note>, me: string, rel: NoteRelations, withReplies: bool)
    ensures Kept(notes, me, rel, withReplies) == Filter(notes, (n: Note) => TimelineKeep(n, me, rel, withReplies))
  {
    var a := AuthorPred(ValidIds(me, rel));
    var c := ChannelPred(Some(me), rel.followingChannelIds);
    var r := ReplyPred(withReplies, Some(me));
    var keep := (n: Note) => TimelineKeep(n, me, rel, withReplies);
    assert Kept(notes, me, rel, withReplies) == Filter(Filter(Filter(notes, a), c), r);
    assert Filter(Filter(Filter(notes, a), c), r) == Filter(notes, Both(Both(a, c), r)) by {
      FilterBoth(notes, a, c);
      FilterBoth(notes, Both(a, c), r);
    }
    forall i | 0 <= i < |notes|
      ensures Both(Both(a, c), r)(notes[i]) == keep(notes[i])
    {
      KeepPointwise(notes[i], me, rel, withReplies);
    }
    FilterExt(notes, Both(Both(a, c), r), keep);
  }

  lemma KeepPointwise(n: Note, me: string, rel: NoteRelations, withReplies: bool)
    ensures Both(Both(AuthorPred(ValidIds(me, rel)), ChannelPred(Some(me), rel.followingChannelIds)),
                 ReplyPred(withReplies, Some(me)))(n)
         == TimelineKeep(n, me, rel, withReplies)
  {
  }

  /** A note the sweep may add below cursor `u`. */
  predicate Swept(n: Note, rows: seq<NoteRow>, u: int, me: string, rel: NoteRelations, withReplies: bool) {
    n in MapSeq(rows, ParseScyllaNote) && n.createdAt < u && TimelineKeep(n, me, rel, withReplies)
  }

  /** Every note of a page at cursor `u` that `Kept` lets through is `Swept` below `u`. */
  lemma PageSwept(rows: seq<NoteRow>, u: int, me: string, rel: NoteRelations, withReplies: bool, n: Note)
    requires n in Kept(MapSeq(DayPage(rows, u), ParseScyllaNote), me, rel, withReplies)
    ensures Swept(n, rows, u, me, rel, withReplies)
  {
    var page := DayPage(rows, u);
    KeptIsFilter(MapSeq(page, ParseScyllaNote), me, rel, withReplies);
    var i :| 0 <= i < |page| && MapSeq(page, ParseScyllaNote)[i] == n;
    assert page[i] in rows;
    MapSeqMembers(rows, ParseScyllaNote, n);
  }

  /**
   * When an empty page moves the cursor back, the sweep keeps counted
   * empty pages within thirty, only adds notes by the viewer or a followed
   * user that pass the channel and reply filters, taken from the table
   * strictly below the starting cursor, and stops only once it has the
   * limit or has met thirty empty pages.
   */
  lemma {:induction false} SweepSound(rows: seq<NoteRow>, me: string, rel: NoteRelations, ps: TimelineParams, s: Sweep)
    requires 0 <= s.scanned <= MaxEmptyPages
    ensures var r := RunSweep(rows, me, rel, ps, EndOfPreviousDay, s);
      && Extends(s, r, rows, me, rel, ps.withReplies)
      && r.scanned <= MaxEmptyPages
      && (|r.found| >= ps.limit || r.scanned == MaxEmptyPages)
    decreases MaxEmptyPages - s.scanned, CountBelow(rows, RowCreatedAt, s.until)
  {
    if |s.found| < ps.limit && s.scanned < MaxEmptyPages {
      var s' := Advance(rows, me, rel, ps.withReplies, EndOfPreviousDay, s);
      AdvanceSound(rows, me, rel, ps.withReplies, s);
      SweepSound(rows, me, rel, ps, s');
      ExtendsTrans(s, s', RunSweep(rows, me, rel, ps, EndOfPreviousDay, s'), rows, me, rel, ps.withReplies);
    }
  }

  /**
   * From sweep state `s` to `r`: the cursor has not moved later, no empty
   * page was uncounted, what was found is kept as a prefix, and every note
   * added is `Swept` below the cursor of `s`.
   */
  predicate Extends(s: Sweep, r: Sweep, rows: seq<NoteRow>, me: string, rel: NoteRelations, withReplies: bool) {
    r.until <= s.until && s.scanned <= r.scanned
    && |s.found| <= |r.found| && r.found[..|s.found|] == s.found
    && forall n :: n in r.found ==> n in s.found || Swept(n, rows, s.until, me, rel, withReplies)
  }

  lemma ExtendsTrans(s: Sweep, s': Sweep, r: Sweep, rows: seq<NoteRow>, me: string, rel: NoteRelations, withReplies: bool)
    requires Extends(s, s', rows, me, rel, withReplies) && Extends(s', r, rows, me, rel, withReplies)
    ensures Extends(s, r, rows, me, rel, withReplies)
  {
    assert r.found[..|s.found|] == (r.found[..|s'.found|])[..|s.found|];
  }

  /** One round moves the cursor strictly earlier, counts at most one empty page, and extends the sweep. */
  lemma AdvanceSound(rows: seq<NoteRow>, me: string, rel: NoteRelations, withReplies: bool, s: Sweep)
    ensures var r := Advance(rows, me, rel, withReplies, EndOfPreviousDay, s);
      r.until < s.until && r.scanned <= s.scanned + 1 && Extends(s, r, rows, me, rel, withReplies)
  {
    var r := Advance(rows, me, rel, withReplies, EndOfPreviousDay, s);
    forall n | n in r.found
      ensures n in s.found || Swept(n, rows, s.until, me, rel, withReplies)
    {
      if n !in s.found {
        PageSwept(rows, s.until, me, rel, withReplies, n);
      }
    }
  }

  /**
   * The endpoint returns at most `limit` notes, each by the viewer or a
   * followed user, through the channel and reply filters, strictly older
   * than the starting cursor.
   */
  lemma TimelineSound(rows: seq<NoteRow>, me: string, rel: NoteRelations, ps: TimelineParams, now: int, getTimestamp: string -> int)
    ensures var out := JsSlice(TimelineFound(rows, me, rel, ps, now, getTimestamp).found, 0, ps.limit);
      |out| <= Max(ps.limit, 0)
      && forall n :: n in out ==> Swept(n, rows, StartCursor(ps, now, getTimestamp), me, rel, ps.withReplies)
  {
    SweepSound(rows, me, rel, ps, Sweep(StartCursor(ps, now, getTimestamp), 0, []));
  }

  // ---------------------------------------------------------------------
  // The cursor of an empty page, as written

  /**
   * `new Date(y, m, d - 1, 23, 59, 59, 999)` with `y`, `m`, `d` the UTC
   * parts of `t`: the constructor reads its parts in the server's zone,
   * taken as a fixed `offset` milliseconds ahead of UTC.
   */
  function LocalEndOfPreviousDay(offset: int): int -> int {
    (t: int) => EndOfPreviousDay(t) - offset
  }

  /** The sweep as written, on a server `offset` milliseconds ahead of UTC. */
  function TimelineFoundAsWritten(rows: seq<NoteRow>, me: string, rel: NoteRelations, ps: TimelineParams, now: int,
                                  getTimestamp: string -> int, offset: int): Sweep {
    RunSweep(rows, me, rel, ps, LocalEndOfPreviousDay(offset), Sweep(StartCursor(ps, now, getTimestamp), 0, []))
  }

  /** Only on a UTC server does the as-written cursor agree with the intended one. */
  lemma LocalCursorOffByZone(t: int, offset: int)
    ensures LocalEndOfPreviousDay(offset)(t) == EndOfPreviousDay(t) - offset
    ensures offset < -(t - DayStart(Day(t))) - 1 ==> LocalEndOfPreviousDay(offset)(t) > t
    ensures 0 < offset ==>
      Day(LocalEndOfPreviousDay(offset)(t)) <= Day(t) - 1 && LocalEndOfPreviousDay(offset)(t) < EndOfPreviousDay(t)
  {
  }

  const ExampleDay := 20000

  /** A note by "me" at 03:00 UTC. */
  function EarlyRow(): NoteRow {
    NoteRow(
      DayStart(ExampleDay) + 3 * 3600000, "n", Public, Some("hi"), None, None, false, 0, 0, None, None, 0,
      None, None, None, None, None, None, None, None, None, "me", LocalHost,
      None, None, None, None, None, None,
      None, None, None, None, None, None,
      None, None, None, None, None)
  }

  /**
   * Five hours west of UTC, a request with `untilId` at 02:00 UTC meets an
   * empty page, and the cursor moves forward to 04:59:59.999 UTC of the
   * same day: the sweep returns the 03:00 note, newer than `untilId`.
   */
  lemma WestOfUtcReturnsNewer()
    ensures var ps := TimelineParams(1, Some("cursor"), false);
      var start := DayStart(ExampleDay) + 2 * 3600000;
      var getTimestamp := (id: string) => start;
      var r := TimelineFoundAsWritten([EarlyRow()], "me", NoteRelations([], [], [], [], [], [], [], []), ps, 0, getTimestamp, -5 * 3600000);
      |r.found| == 1 && r.found[0].createdAt > StartCursor(ps, 0, getTimestamp)
  {
    var ps := TimelineParams(1, Some("cursor"), false);
    var start := DayStart(ExampleDay) + 2 * 3600000;
    var getTimestamp := (id: string) => start;
    var rel := NoteRelations([], [], [], [], [], [], [], []);
    var prev := LocalEndOfPreviousDay(-5 * 3600000);
    assert StartCursor(ps, 0, getTimestamp) == start;
    var s1 := ExampleFirstRound(rel);
    var s2 := ExampleSecondRound(rel);
    assert RunSweep([EarlyRow()], "me", rel, ps, prev, s2) == s2;
    assert RunSweep([EarlyRow()], "me", rel, ps, prev, s1) == s2;
  }

  /** The first round, at 02:00, meets an empty page and moves the cursor to 04:59:59.999. */
  lemma ExampleFirstRound(rel: NoteRelations) returns (s1: Sweep)
    ensures s1 == Sweep(DayStart(ExampleDay) + 5 * 3600000 - 1, 1, [])
    ensures Advance([EarlyRow()], "me", rel, false, LocalEndOfPreviousDay(-5 * 3600000), Sweep(DayStart(ExampleDay) + 2 * 3600000, 0, [])) == s1
  {
    ExamplePages();
    s1 := Sweep(DayStart(ExampleDay) + 5 * 3600000 - 1, 1, []);
  }

  /** The second round finds the 03:00 row and keeps its note. */
  lemma ExampleSecondRound(rel: NoteRelations) returns (s2: Sweep)
    ensures s2 == Sweep(DayStart(ExampleDay) + 3 * 3600000, 1, [ParseScyllaNote(EarlyRow())])
    ensures Advance([EarlyRow()], "me", rel, false, LocalEndOfPreviousDay(-5 * 3600000), Sweep(DayStart(ExampleDay) + 5 * 3600000 - 1, 1, [])) == s2
  {
    ExamplePages();
    ExampleKept(rel);
    s2 := Sweep(DayStart(ExampleDay) + 3 * 3600000, 1, [ParseScyllaNote(EarlyRow())]);
  }

  /** At 02:00 the example's day page is empty; at 04:59:59.999 it holds the 03:00 row. */
  lemma ExamplePages()
    ensures DayPage([EarlyRow()], DayStart(ExampleDay) + 2 * 3600000) == []
    ensures LocalEndOfPreviousDay(-5 * 3600000)(DayStart(ExampleDay) + 2 * 3600000) == DayStart(ExampleDay) + 5 * 3600000 - 1
    ensures DayPage([EarlyRow()], DayStart(ExampleDay) + 5 * 3600000 - 1) == [EarlyRow()]
  {
    var rows := [EarlyRow()];
    var start := DayStart(ExampleDay) + 2 * 3600000;
    var u1 := DayStart(ExampleDay) + 5 * 3600000 - 1;
    assert !Matches(NoteTable(rows), NoteByDate, "", start, None, EarlyRow());
    assert Filter(rows, MatchPred(NoteTable(rows), NoteByDate, "", start, None)) == [];
    assert Matches(NoteTable(rows), NoteByDate, "", u1, None, EarlyRow());
    assert Filter(rows, MatchPred(NoteTable(rows), NoteByDate, "", u1, None)) == rows;
  }

  /** The example's note is the viewer's own and passes the channel and reply filters. */
  lemma ExampleKept(rel: NoteRelations)
    ensures MapSeq([EarlyRow()], ParseScyllaNote) == [ParseScyllaNote(EarlyRow())]
    ensures Kept([ParseScyllaNote(EarlyRow())], "me", rel, false) == [ParseScyllaNote(EarlyRow())]
  {
    var n := ParseScyllaNote(EarlyRow());
    assert TimelineKeep(n, "me", rel, false);
    KeptIsFilter([n], "me", rel, false);
  }

  /** With the intended cursor the same request finds nothing newer than `untilId`. */
  lemma WestOfUtcCorrected()
    ensures var ps := TimelineParams(1, Some("cursor"), false);
      var start := DayStart(ExampleDay) + 2 * 3600000;
      var getTimestamp := (id: string) => start;
      var r := TimelineFound([EarlyRow()], "me", NoteRelations([], [], [], [], [], [], [], []), ps, 0, getTimestamp);
      forall n :: n in r.found ==> n.createdAt < StartCursor(ps, 0, getTimestamp)
  {
    var ps := TimelineParams(1, Some("cursor"), false);
    var start := DayStart(ExampleDay) + 2 * 3600000;
    var getTimestamp := (id: string) => start;
    SweepSound([EarlyRow()], "me", NoteRelations([], [], [], [], [], [], [], []), ps, Sweep(start, 0, []));
  }
}

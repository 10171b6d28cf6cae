/**
 * The store branch of the local timeline
 * (server/api/endpoints/notes/local-timeline.ts): each round reads the local
 * feed under the endpoint's filter closure, cuts the page to one and a half
 * times the limit, and moves `untilDate` back to the oldest note of a full
 * batch. The viewer is optional.
 */
module LocalTimeline {
  import opened Common
  import opened ScyllaRows
  import opened WordMute
  import opened NoteFilters
  import opened Pagination
  import opened PaginationProofs
  import opened Refetch

  /** The request: paging, the media flags and `withReplies`. */
  datatype LocalParams = LocalParams(page: PageParams, files: FileFlags, withReplies: bool)

  const LtlDisabled := "LTL_DISABLED"

  /** The endpoint's `filter` closure, step by step. */
  function LocalFilterSteps(notes: seq<Note>, ps: LocalParams, user: Option<string>, rel: NoteRelations, re2: RegexTest): seq<Note> {
    var a := Audience(notes, user, rel, ps.withReplies);
    var s := if user.Some? then Shun(a, user.value, rel, re2) else a;
    Filter(FileSteps(s, ps.files), NotHiddenPred())
  }

  /** What the closure asks of one note; the screens apply only to a signed-in viewer. */
  predicate LocalPass(n: Note, ps: LocalParams, user: Option<string>, rel: NoteRelations, re2: RegexTest) {
    InAudience(n, user, rel, ps.withReplies)
    && (user.Some? ==> Unshunned(n, user.value, rel, re2))
    && Shown(n, ps.files)
  }

  function LocalPassPred(ps: LocalParams, user: Option<string>, rel: NoteRelations, re2: RegexTest): Note -> bool {
    (n: Note) => LocalPass(n, ps, user, rel, re2)
  }

  lemma LocalPointwise(n: Note, ps: LocalParams, user: Option<string>, rel: NoteRelations, re2: RegexTest)
    ensures Both(Both(AudiencePred(user, rel, ps.withReplies), MaybeUnshunnedPred(user, rel, re2)), ShownPred(ps.files))(n)
         == LocalPassPred(ps, user, rel, re2)(n)
  {
  }

  /** The closure keeps, in order, the notes `LocalPass` accepts. */
  lemma LocalFilterIsFilter(notes: seq<Note>, ps: LocalParams, user: Option<string>, rel: NoteRelations, re2: RegexTest)
    ensures LocalFilterSteps(notes, ps, user, rel, re2) == Filter(notes, LocalPassPred(ps, user, rel, re2))
  {
    var a := AudiencePred(user, rel, ps.withReplies);
    var u := MaybeUnshunnedPred(user, rel, re2);
    AudienceIsFilter(notes, user, rel, ps.withReplies);
    MaybeShunIsFilter(Filter(notes, a), user, rel, re2);
    ShownIsFilter(Filter(Filter(notes, a), u), ps.files);
    FilterBoth(notes, a, u);
    FilterBoth(notes, Both(a, u), ShownPred(ps.files));
    var all := Both(Both(a, u), ShownPred(ps.files));
    forall i | 0 <= i < |notes|
      ensures all(notes[i]) == LocalPassPred(ps, user, rel, re2)(notes[i])
    {
      LocalPointwise(notes[i], ps, user, rel, re2);
    }
    FilterExt(notes, all, LocalPassPred(ps, user, rel, re2));
  }

  /**
   * For an anonymous viewer the closure keeps what is public or home,
   * outside channels and not a reply to someone else, and reads none of the
   * viewer's relations and no word mute.
   */
  lemma AnonymousPass(n: Note, ps: LocalParams, rel: NoteRelations, re2: RegexTest, rel': NoteRelations, re2': RegexTest)
    ensures LocalPass(n, ps, None, rel, re2) == LocalPass(n, ps, None, rel', re2')
    ensures LocalPass(n, ps, None, rel, re2) <==>
      IsPublicOrHome(n) && !HasChannel(n) && (!IsReply(n) || n.replyUserId == Some(n.userId)) && Shown(n, ps.files)
  {
  }

  /** For a signed-in viewer, the closure also drops every note a mute, a block or a renote mute screens out. */
  lemma SignedInScreens(n: Note, ps: LocalParams, me: string, rel: NoteRelations, re2: RegexTest)
    ensures LocalPass(n, ps, Some(me), rel, re2) ==>
      !MentionsMutedUser(n, rel.mutedUserIds) && !FromMutedInstance(n, rel.mutedInstances)
      && !HardMuted(n, Some(me), rel.mutedWords, re2)
      && !MentionsMutedUser(n, rel.blockerIds + rel.blockingIds)
      && !(IsPureRenote(n) && n.userId in rel.renoteMutedIds)
  {
  }

  // ---------------------------------------------------------------------
  // One round

  /** The local view of `note` under the endpoint's closure. */
  function LocalFeedOf(rows: seq<NoteRow>, ps: LocalParams, user: Option<string>, rel: NoteRelations, re2: RegexTest): Feed<NoteRow, Note> {
    Feed(rows, RowCreatedAt, Unkeyed, ParseScyllaNote, LocalPassPred(ps, user, rel, re2))
  }

  /** The batch of one round, cursor `pp`. */
  function LocalBatch(pp: PageParams, ps: LocalParams, user: Option<string>, rel: NoteRelations, re2: RegexTest,
                      rows: seq<NoteRow>, e: Engine): Result<seq<Note>> {
    var r := Paginate(LocalFeedOf(rows, ps, user, rel, re2), LocalFeed, pp, None, e.now, e.getTimestamp, true, e.queryLimit, e.maxPartitions);
    if r.Err? then Err(r.msg) else Ok(Cut(MapSeq(r.value.rows, ParseScyllaNote), pp.limit))
  }

  function LocalBatches(ps: LocalParams, user: Option<string>, rel: NoteRelations, re2: RegexTest,
                        rows: seq<NoteRow>, e: Engine): Option<int> -> Result<seq<Note>> {
    (d: Option<int>) => LocalBatch(ps.page.(untilDate := d), ps, user, rel, re2, rows, e)
  }

  /** `execPaginationQuery("local", ps, { note: filter })` cut to `ps.limit * 1.5`. */
  method LocalRound(pp: PageParams, ps: LocalParams, user: Option<string>, rel: NoteRelations, re2: RegexTest,
                    rows: seq<NoteRow>, e: Engine) returns (b: Result<seq<Note>>)
    ensures b == LocalBatch(pp, ps, user, rel, re2, rows, e)
  {
    var found, _ := ExecPaginationQuery(LocalFeedOf(rows, ps, user, rel, re2), LocalFeed, pp, None,
                                        e.now, e.getTimestamp, true, e.queryLimit, e.maxPartitions);
    if found.Err? {
      return Err(found.msg);
    }
    b := Ok(Cut(found.value, pp.limit));
  }

  /**
   * A round's batch is at most one and a half times the limit long, and
   * each of its notes is a decoded row of the table, older than the cursor
   * and accepted by the closure; a table in clustering order gives a batch
   * newest first.
   */
  lemma LocalBatchSound(pp: PageParams, ps: LocalParams, user: Option<string>, rel: NoteRelations, re2: RegexTest,
                        rows: seq<NoteRow>, e: Engine)
    ensures var b := LocalBatch(pp, ps, user, rel, re2, rows, e);
      b.Ok?
      && (pp.limit >= 0 ==> |b.value| <= HalfAgain(pp.limit))
      && (SortedDesc(rows, RowCreatedAt) ==> SortedDesc(b.value, CreatedAt))
      && forall n :: n in b.value ==> LocalNoteOk(n, pp, ps, user, rel, re2, rows, e)
  {
    var f := LocalFeedOf(rows, ps, user, rel, re2);
    var r := Paginate(f, LocalFeed, pp, None, e.now, e.getTimestamp, true, e.queryLimit, e.maxPartitions);
    var page := MapSeq(r.value.rows, ParseScyllaNote);
    var b := Cut(page, pp.limit);
    assert SortedDesc(rows, RowCreatedAt) ==> SortedDesc(b, CreatedAt) by {
      if SortedDesc(rows, RowCreatedAt) {
        PaginateSound(f, LocalFeed, pp, None, e.now, e.getTimestamp, e.queryLimit, e.maxPartitions);
        SortedMapTake(r.value.rows, ParseScyllaNote, RowCreatedAt, CreatedAt, |r.value.rows|);
        assert Take(page, |r.value.rows|) == page;
        SortedPrefix(page, CreatedAt, |b|);
      }
    }
    forall n | n in b
      ensures LocalNoteOk(n, pp, ps, user, rel, re2, rows, e)
    {
      LocalPageNote(pp, ps, user, rel, re2, rows, e, n);
    }
  }

  /** What a round promises of one of its notes: a decoded row of the table, older than the cursor, through the endpoint's filters. */
  predicate LocalNoteOk(n: Note, pp: PageParams, ps: LocalParams, user: Option<string>, rel: NoteRelations, re2: RegexTest,
                        rows: seq<NoteRow>, e: Engine) {
    n in MapSeq(rows, ParseScyllaNote) && n.createdAt < ResolveUntil(pp, e.now, e.getTimestamp)
    && LocalPass(n, ps, user, rel, re2)
  }

  /** A note of the page the query returns meets `LocalNoteOk`. */
  lemma LocalPageNote(pp: PageParams, ps: LocalParams, user: Option<string>, rel: NoteRelations, re2: RegexTest,
                      rows: seq<NoteRow>, e: Engine, n: Note)
    requires var r := Paginate(LocalFeedOf(rows, ps, user, rel, re2), LocalFeed, pp, None, e.now, e.getTimestamp, true, e.queryLimit, e.maxPartitions);
      r.Ok? && n in MapSeq(r.value.rows, ParseScyllaNote)
    ensures LocalNoteOk(n, pp, ps, user, rel, re2, rows, e)
  {
    var f := LocalFeedOf(rows, ps, user, rel, re2);
    PageNote(f, LocalFeed, pp, None, e, n);
    var row :| row in f.table && f.decode(row) == n && f.stamp(row) < ResolveUntil(pp, e.now, e.getTimestamp);
    assert f.keep(n);
  }

  lemma LocalBounded(ps: LocalParams, user: Option<string>, rel: NoteRelations, re2: RegexTest, rows: seq<NoteRow>, e: Engine)
    requires NonZeroStamps(rows)
    ensures Bounded(LocalBatches(ps, user, rel, re2, rows, e), MapSeq(rows, ParseScyllaNote))
  {
    var batchOf := LocalBatches(ps, user, rel, re2, rows, e);
    forall d: Option<int>, n: Note | batchOf(d).Ok? && n in batchOf(d).value
      ensures n in MapSeq(rows, ParseScyllaNote) && n.createdAt != 0 && (d.Some? && d.value != 0 ==> n.createdAt < d.value)
    {
      assert batchOf(d) == LocalBatch(ps.page.(untilDate := d), ps, user, rel, re2, rows, e);
      LocalWithin(ps.page.(untilDate := d), ps, user, rel, re2, rows, e, n);
    }
  }

  /** A note of one round is a decoded table row, stamped non-zero and older than `untilDate`. */
  lemma LocalWithin(pp: PageParams, ps: LocalParams, user: Option<string>, rel: NoteRelations, re2: RegexTest,
                    rows: seq<NoteRow>, e: Engine, n: Note)
    requires NonZeroStamps(rows)
    requires LocalBatch(pp, ps, user, rel, re2, rows, e).Ok? && n in LocalBatch(pp, ps, user, rel, re2, rows, e).value
    ensures n in MapSeq(rows, ParseScyllaNote) && n.createdAt != 0
    ensures NumTruthy(pp.untilDate) ==> n.createdAt < pp.untilDate.value
  {
    LocalBatchSound(pp, ps, user, rel, re2, rows, e);
    assert LocalNoteOk(n, pp, ps, user, rel, re2, rows, e);
    MapSeqMembers(rows, ParseScyllaNote, n);
  }

  // ---------------------------------------------------------------------
  // The endpoint

  /** What the store branch answers. */
  function LocalResult<P>(ps: LocalParams, viewer: Option<Viewer>, disableLocalTimeline: bool, rel: NoteRelations, re2: RegexTest,
                         rows: seq<NoteRow>, e: Engine, pack: seq<Note> -> seq<P>): (r: Result<seq<P>>)
    requires NonZeroStamps(rows)
    ensures TimelineOff(disableLocalTimeline, viewer) ==> r == Err(LtlDisabled)
    ensures r.Ok? ==> |r.value| <= Max(ps.page.limit, 0)
  {
    if TimelineOff(disableLocalTimeline, viewer) then Err(LtlDisabled)
    else
      LocalBounded(ps, ViewerId(viewer), rel, re2, rows, e);
      Refetched(LocalBatches(ps, ViewerId(viewer), rel, re2, rows, e), pack, ps.page.limit, ps.page.untilDate,
                MapSeq(rows, ParseScyllaNote))
  }

  /**
   * The endpoint's store branch: `rel` is what the caches return for a
   * signed-in viewer (unread otherwise), `re2` the regex engine of the word
   * mutes, `pack` is `Notes.packMany`.
   */
  method LocalTimelineStore<P>(ps: LocalParams, viewer: Option<Viewer>, disableLocalTimeline: bool, rel: NoteRelations,
                               re2: RegexTest, rows: seq<NoteRow>, e: Engine, pack: seq<Note> -> seq<P>) returns (r: Result<seq<P>>)
    requires NonZeroStamps(rows)
    ensures r == LocalResult(ps, viewer, disableLocalTimeline, rel, re2, rows, e, pack)
  {
    if TimelineOff(disableLocalTimeline, viewer) {
      return Err(LtlDisabled);
    }
    var user := ViewerId(viewer);
    ghost var batchOf := LocalBatches(ps, user, rel, re2, rows, e);
    ghost var universe := MapSeq(rows, ParseScyllaNote);
    LocalBounded(ps, user, rel, re2, rows, e);
    var untilDate := ps.page.untilDate;
    var foundPacked: seq<P> := [];
    while |foundPacked| < ps.page.limit
      invariant Rounds(batchOf, pack, ps.page.limit, untilDate, foundPacked, universe)
             == Rounds(batchOf, pack, ps.page.limit, ps.page.untilDate, [], universe)
      decreases Remaining(universe, untilDate)
    {
      var found := LocalRound(ps.page.(untilDate := untilDate), ps, user, rel, re2, rows, e);
      RoundsStep(batchOf, pack, ps.page.limit, untilDate, foundPacked, universe, found);
      if found.Err? {
        return Err(found.msg);
      }
      var foundNotes := found.value;
      foundPacked := foundPacked + pack(foundNotes);
      if |foundNotes| < ps.page.limit {
        return Ok(Take(foundPacked, ps.page.limit));
      }
      untilDate := Some(foundNotes[|foundNotes| - 1].createdAt);
    }
    return Ok(Take(foundPacked, ps.page.limit));
  }

  /** Over a table in clustering order, every later note of the request is strictly older: no note is fetched twice. */
  lemma LocalRoundsOlder<P>(ps: LocalParams, user: Option<string>, rel: NoteRelations, re2: RegexTest,
                            rows: seq<NoteRow>, e: Engine, pack: seq<Note> -> seq<P>)
    requires NonZeroStamps(rows) && SortedDesc(rows, RowCreatedAt)
    requires Bounded(LocalBatches(ps, user, rel, re2, rows, e), MapSeq(rows, ParseScyllaNote))
    ensures OlderRounds(Batches(LocalBatches(ps, user, rel, re2, rows, e), pack, ps.page.limit, ps.page.untilDate, [],
                                MapSeq(rows, ParseScyllaNote)))
  {
    var batchOf := LocalBatches(ps, user, rel, re2, rows, e);
    forall d | batchOf(d).Ok?
      ensures SortedDesc(batchOf(d).value, CreatedAt)
    {
      LocalBatchSound(ps.page.(untilDate := d), ps, user, rel, re2, rows, e);
    }
    BatchesOlder(batchOf, pack, ps.page.limit, ps.page.untilDate, [], MapSeq(rows, ParseScyllaNote));
  }
}

/**
 * The store branch of the recommended timeline
 * (server/api/endpoints/notes/recommended-timeline.ts): one read of the
 * global feed under a closure that keeps public posts from the instances
 * the administrator recommends, then the first `limit` of them. Suspended
 * authors are screened out for every viewer; the viewer's own mutes only
 * for a signed-in one.
 */
module RecommendedTimeline {
  import opened Common
  import opened ScyllaRows
  import opened WordMute
  import opened NoteFilters
  import opened Pagination
  import opened PaginationProofs
  import opened Refetch

  /** The request: paging, the media flags and `withReplies`. */
  datatype RecommendedParams = RecommendedParams(page: PageParams, files: FileFlags, withReplies: bool)

  /** The two instance settings the endpoint reads. */
  datatype RecommendedMeta = RecommendedMeta(disableRecommendedTimeline: bool, recommendedInstances: seq<string>)

  const RtlDisabled := "RTL_DISABLED"

  /** Public, from a remote host the administrator recommends, and outside channels. */
  predicate FromRecommended(n: Note, instances: seq<string>) {
    n.visibility == Public && Truthy(n.userHost) && n.userHost.value in instances && !HasChannel(n)
  }

  function FromRecommendedPred(instances: seq<string>): Note -> bool {
    (n: Note) => FromRecommended(n, instances)
  }

  /** The mute, word-mute and renote-mute screens of a signed-in viewer. */
  predicate MuteScreens(n: Note, me: string, rel: NoteRelations, re2: RegexTest) {
    !MentionsMutedUser(n, rel.mutedUserIds) && !FromMutedInstance(n, rel.mutedInstances)
    && !HardMuted(n, Some(me), rel.mutedWords, re2)
    && !(IsPureRenote(n) && n.userId in rel.renoteMutedIds)
  }

  function MuteScreensPred(user: Option<string>, rel: NoteRelations, re2: RegexTest): Note -> bool {
    (n: Note) => user.Some? ==> MuteScreens(n, user.value, rel, re2)
  }

  /** The `if (user) { ... }` block of the closure. */
  function MuteSteps(notes: seq<Note>, user: Option<string>, rel: NoteRelations, re2: RegexTest): seq<Note> {
    if user.Some? then
      var f1 := FilterMutedUser(notes, rel.mutedUserIds, rel.mutedInstances, None);
      var f2 := FilterMutedNote(f1, user.value, rel.mutedWords, re2);
      FilterMutedRenotes(f2, rel.renoteMutedIds)
    else notes
  }

  /** The endpoint's `filter` closure, step by step. */
  function RecommendedSteps(notes: seq<Note>, ps: RecommendedParams, user: Option<string>, rel: NoteRelations,
                            suspendedUserIds: seq<string>, instances: seq<string>, re2: RegexTest): seq<Note> {
    var f0 := Filter(notes, FromRecommendedPred(instances));
    var f1 := FilterReply(f0, ps.withReplies, user);
    var f2 := FilterVisibility(f1, user, rel.followingUserIds);
    var f3 := FilterBlockUser(f2, BlockIds(user, rel, suspendedUserIds));
    var f4 := MuteSteps(f3, user, rel, re2);
    Filter(FileSteps(f4, ps.files), NotHiddenPred())
  }

  /** What the closure asks of one note. */
  predicate RecommendedPass(n: Note, ps: RecommendedParams, user: Option<string>, rel: NoteRelations,
                            suspendedUserIds: seq<string>, instances: seq<string>, re2: RegexTest) {
    FromRecommended(n, instances)
    && ReplyVisible(n, ps.withReplies, user)
    && VisibleTo(n, user, rel.followingUserIds)
    && !MentionsMutedUser(n, BlockIds(user, rel, suspendedUserIds))
    && (user.Some? ==> MuteScreens(n, user.value, rel, re2))
    && Shown(n, ps.files)
  }

  function RecommendedPassPred(ps: RecommendedParams, user: Option<string>, rel: NoteRelations,
                               suspendedUserIds: seq<string>, instances: seq<string>, re2: RegexTest): Note -> bool {
    (n: Note) => RecommendedPass(n, ps, user, rel, suspendedUserIds, instances, re2)
  }

  lemma MutePointwise(n: Note, me: string, rel: NoteRelations, re2: RegexTest)
    ensures Both(Both(MutedUserPred(rel.mutedUserIds, rel.mutedInstances), WordMutePred(me, rel.mutedWords, re2)),
                 RenoteMutePred(rel.renoteMutedIds))(n)
         == MuteScreensPred(Some(me), rel, re2)(n)
  {
  }

  /** The signed-in block keeps, in order, the notes `MuteScreens` accepts; for an anonymous viewer it keeps all. */
  lemma MuteStepsIsFilter(notes: seq<Note>, user: Option<string>, rel: NoteRelations, re2: RegexTest)
    ensures MuteSteps(notes, user, rel, re2) == Filter(notes, MuteScreensPred(user, rel, re2))
  {
    if user.Some? {
      var p1 := MutedUserPred(rel.mutedUserIds, rel.mutedInstances);
      var p2 := WordMutePred(user.value, rel.mutedWords, re2);
      var p3 := RenoteMutePred(rel.renoteMutedIds);
      assert EffectiveMutes(rel.mutedUserIds, None) == rel.mutedUserIds;
      FilterBoth(notes, p1, p2);
      FilterBoth(notes, Both(p1, p2), p3);
      forall i | 0 <= i < |notes|
        ensures Both(Both(p1, p2), p3)(notes[i]) == MuteScreensPred(user, rel, re2)(notes[i])
      {
        MutePointwise(notes[i], user.value, rel, re2);
      }
      FilterExt(notes, Both(Both(p1, p2), p3), MuteScreensPred(user, rel, re2));
    } else {
      FilterAll(notes, MuteScreensPred(user, rel, re2));
    }
  }

  lemma RecommendedPointwise(n: Note, ps: RecommendedParams, user: Option<string>, rel: NoteRelations,
                             suspendedUserIds: seq<string>, instances: seq<string>, re2: RegexTest)
    ensures Both(Both(Both(Both(Both(FromRecommendedPred(instances), ReplyPred(ps.withReplies, user)),
                                VisibilityPred(user, rel.followingUserIds)),
                           BlockPred(BlockIds(user, rel, suspendedUserIds))),
                      MuteScreensPred(user, rel, re2)),
                 ShownPred(ps.files))(n)
         == RecommendedPassPred(ps, user, rel, suspendedUserIds, instances, re2)(n)
  {
  }

  /** The closure keeps, in order, the notes `RecommendedPass` accepts. */
  lemma RecommendedIsFilter(notes: seq<Note>, ps: RecommendedParams, user: Option<string>, rel: NoteRelations,
                            suspendedUserIds: seq<string>, instances: seq<string>, re2: RegexTest)
    ensures RecommendedSteps(notes, ps, user, rel, suspendedUserIds, instances, re2)
         == Filter(notes, RecommendedPassPred(ps, user, rel, suspendedUserIds, instances, re2))
  {
    var p0 := FromRecommendedPred(instances);
    var p1 := ReplyPred(ps.withReplies, user);
    var p2 := VisibilityPred(user, rel.followingUserIds);
    var p3 := BlockPred(BlockIds(user, rel, suspendedUserIds));
    var p4 := MuteScreensPred(user, rel, re2);
    var p5 := ShownPred(ps.files);
    var q1 := Both(p0, p1);
    var q2 := Both(q1, p2);
    var q3 := Both(q2, p3);
    var q4 := Both(q3, p4);
    var all := Both(q4, p5);
    FilterBoth(notes, p0, p1);
    FilterBoth(notes, q1, p2);
    FilterBoth(notes, q2, p3);
    MuteStepsIsFilter(Filter(notes, q3), user, rel, re2);
    FilterBoth(notes, q3, p4);
    ShownIsFilter(Filter(notes, q4), ps.files);
    FilterBoth(notes, q4, p5);
    forall i | 0 <= i < |notes|
      ensures all(notes[i]) == RecommendedPassPred(ps, user, rel, suspendedUserIds, instances, re2)(notes[i])
    {
      RecommendedPointwise(notes[i], ps, user, rel, suspendedUserIds, instances, re2);
    }
    FilterExt(notes, all, RecommendedPassPred(ps, user, rel, suspendedUserIds, instances, re2));
  }

  /**
   * Only public, remote, non-channel posts of a recommended instance pass,
   * and a post by, replying to or renoting a suspended user never does,
   * whoever is asking.
   */
  lemma RecommendedOnly(n: Note, ps: RecommendedParams, user: Option<string>, rel: NoteRelations,
                        suspendedUserIds: seq<string>, instances: seq<string>, re2: RegexTest)
    ensures RecommendedPass(n, ps, user, rel, suspendedUserIds, instances, re2) ==>
      n.visibility == Public && n.userHost.Some? && n.userHost.value != "" && n.userHost.value in instances
      && !HasChannel(n) && n.visibility != Hidden
    ensures MentionsMutedUser(n, suspendedUserIds) ==> !RecommendedPass(n, ps, user, rel, suspendedUserIds, instances, re2)
  {
    if MentionsMutedUser(n, suspendedUserIds) {
      assert MentionsMutedUser(n, BlockIds(user, rel, suspendedUserIds));
    }
  }

  /**
   * An anonymous viewer's closure reads none of the relations and no word
   * mute: it keeps recommended posts that are not replies to others, that
   * involve no suspended user and that the media flags accept.
   */
  lemma AnonymousRecommended(n: Note, ps: RecommendedParams, rel: NoteRelations, rel': NoteRelations,
                             suspendedUserIds: seq<string>, instances: seq<string>, re2: RegexTest, re2': RegexTest)
    ensures RecommendedPass(n, ps, None, rel, suspendedUserIds, instances, re2)
        <==> RecommendedPass(n, ps, None, rel', suspendedUserIds, instances, re2')
    ensures RecommendedPass(n, ps, None, rel, suspendedUserIds, instances, re2) <==>
      FromRecommended(n, instances) && (!IsReply(n) || n.replyUserId == Some(n.userId))
      && !MentionsMutedUser(n, suspendedUserIds) && Shown(n, ps.files)
  {
    assert BlockIds(None, rel, suspendedUserIds) == suspendedUserIds;
    assert BlockIds(None, rel', suspendedUserIds) == suspendedUserIds;
  }

  /** A signed-in viewer's closure also drops everything the viewer's mutes, blocks and renote mutes screen out. */
  lemma SignedInRecommended(n: Note, ps: RecommendedParams, me: string, rel: NoteRelations,
                            suspendedUserIds: seq<string>, instances: seq<string>, re2: RegexTest)
    ensures RecommendedPass(n, ps, Some(me), rel, suspendedUserIds, instances, re2) ==>
      !MentionsMutedUser(n, rel.mutedUserIds) && !FromMutedInstance(n, rel.mutedInstances)
      && !HardMuted(n, Some(me), rel.mutedWords, re2)
      && !MentionsMutedUser(n, rel.blockerIds) && !MentionsMutedUser(n, rel.blockingIds)
      && !(IsPureRenote(n) && n.userId in rel.renoteMutedIds)
  {
  }

  // ---------------------------------------------------------------------
  // The endpoint

  function RecommendedFeedOf(rows: seq<NoteRow>, ps: RecommendedParams, user: Option<string>, rel: NoteRelations,
                             suspendedUserIds: seq<string>, instances: seq<string>, re2: RegexTest): Feed<NoteRow, Note> {
    Feed(rows, RowCreatedAt, Unkeyed, ParseScyllaNote, RecommendedPassPred(ps, user, rel, suspendedUserIds, instances, re2))
  }

  /** The notes the store branch packs: `execPaginationQuery("recommended", …)` sliced to `limit`. */
  function RecommendedNotes(ps: RecommendedParams, viewer: Option<Viewer>, m: RecommendedMeta, rel: NoteRelations,
                            suspendedUserIds: seq<string>, re2: RegexTest, rows: seq<NoteRow>, e: Engine): Result<seq<Note>> {
    if TimelineOff(m.disableRecommendedTimeline, viewer) then Err(RtlDisabled)
    else
      var f := RecommendedFeedOf(rows, ps, ViewerId(viewer), rel, suspendedUserIds, m.recommendedInstances, re2);
      var r := Paginate(f, RecommendedFeed, ps.page, None, e.now, e.getTimestamp, true, e.queryLimit, e.maxPartitions);
      if r.Err? then Err(r.msg) else Ok(JsSlice(MapSeq(r.value.rows, ParseScyllaNote), 0, ps.page.limit))
  }

  /**
   * A disabled timeline is refused to everyone but admins and moderators;
   * otherwise the answer holds at most `limit` notes, each a decoded row of
   * the table older than the cursor and accepted by the closure, newest
   * first when the table is in clustering order.
   */
  lemma RecommendedSound(ps: RecommendedParams, viewer: Option<Viewer>, m: RecommendedMeta, rel: NoteRelations,
                         suspendedUserIds: seq<string>, re2: RegexTest, rows: seq<NoteRow>, e: Engine)
    ensures var r := RecommendedNotes(ps, viewer, m, rel, suspendedUserIds, re2, rows, e);
      (TimelineOff(m.disableRecommendedTimeline, viewer) <==> r == Err(RtlDisabled))
      && (r.Err? ==> r == Err(RtlDisabled))
      && (r.Ok? ==>
        (ps.page.limit >= 0 ==> |r.value| <= ps.page.limit)
        && (SortedDesc(rows, RowCreatedAt) ==> SortedDesc(r.value, CreatedAt))
        && forall n :: n in r.value ==>
          n in MapSeq(rows, ParseScyllaNote) && n.createdAt < ResolveUntil(ps.page, e.now, e.getTimestamp)
          && RecommendedPass(n, ps, ViewerId(viewer), rel, suspendedUserIds, m.recommendedInstances, re2))
  {
    if !TimelineOff(m.disableRecommendedTimeline, viewer) {
      var f := RecommendedFeedOf(rows, ps, ViewerId(viewer), rel, suspendedUserIds, m.recommendedInstances, re2);
      var r := Paginate(f, RecommendedFeed, ps.page, None, e.now, e.getTimestamp, true, e.queryLimit, e.maxPartitions);
      if ps.page.limit >= 0 {
        JsSliceFront(MapSeq(r.value.rows, ParseScyllaNote), ps.page.limit);
      }
      SlicedNotesKept(f, RecommendedFeed, ps.page, None, e, ps.page.limit);
      if SortedDesc(rows, RowCreatedAt) {
        SlicedNotesSorted(f, RecommendedFeed, ps.page, None, e, ps.page.limit);
      }
    }
  }

  /** What the store branch answers; `pack` is `Notes.packMany`. */
  function RecommendedResult<P>(ps: RecommendedParams, viewer: Option<Viewer>, m: RecommendedMeta, rel: NoteRelations,
                                suspendedUserIds: seq<string>, re2: RegexTest, rows: seq<NoteRow>, e: Engine,
                                pack: seq<Note> -> seq<P>): Result<seq<P>> {
    var r := RecommendedNotes(ps, viewer, m, rel, suspendedUserIds, re2, rows, e);
    if r.Err? then Err(r.msg) else Ok(pack(r.value))
  }

  /**
   * The endpoint's store branch: `rel` is what the caches return for a
   * signed-in viewer (blockers and blockees are empty otherwise),
   * `suspendedUserIds` what the suspended-users cache returns.
   */
  method RecommendedTimelineStore<P>(ps: RecommendedParams, viewer: Option<Viewer>, m: RecommendedMeta, rel: NoteRelations,
                                     suspendedUserIds: seq<string>, re2: RegexTest, rows: seq<NoteRow>, e: Engine,
                                     pack: seq<Note> -> seq<P>) returns (r: Result<seq<P>>)
    ensures r == RecommendedResult(ps, viewer, m, rel, suspendedUserIds, re2, rows, e, pack)
  {
    if TimelineOff(m.disableRecommendedTimeline, viewer) {
      return Err(RtlDisabled);
    }
    var f := RecommendedFeedOf(rows, ps, ViewerId(viewer), rel, suspendedUserIds, m.recommendedInstances, re2);
    var foundNotes, _ := ExecPaginationQuery(f, RecommendedFeed, ps.page, None, e.now, e.getTimestamp, true,
                                             e.queryLimit, e.maxPartitions);
    if foundNotes.Err? {
      return Err(foundNotes.msg);
    }
    return Ok(pack(JsSlice(foundNotes.value, 0, ps.page.limit)));
  }

  // ---------------------------------------------------------------------
  // The closure as written: the filters are not awaited

  /**
   * The closure as written (recommended-timeline.ts:150-189). The first
   * `notes.filter` runs on the array. `filterReply`, `filterVisibility`,
   * `filterBlockUser` and the signed-in mute filters are `async` and are
   * called without `await`, so from line 158 on `filtered` holds a Promise
   * (`filterBlockUser`, `filterMutedUser` and `filterMutedRenotes` are also
   * called without their `user` argument, which no longer matters). The
   * next `filtered.filter`, at line 175, 178, 183 or, unconditionally, 187,
   * is a `TypeError`.
   */
  function RecommendedClosureAsWritten(notes: seq<Note>, ps: RecommendedParams, user: Option<string>, rel: NoteRelations,
                                       instances: seq<string>): Result<seq<Note>> {
    var f0 := Notes(Filter(notes, FromRecommendedPred(instances)));
    var f1 := Unawaited(f0, user.None? || !ps.withReplies);
    var f2 := Unawaited(f1, true);
    var f3 := Unawaited(f2, true);
    var f4 := if user.Some? then Unawaited(Unawaited(Unawaited(f3, true), |rel.mutedWords| > 0), true) else f3;
    var r1 := FilterIf(Ok(f4), ps.files.withFiles, HasFilesPred());
    var r2 := FilterIf(r1, ps.files.fileType.Some?, FileTypePred(OrElse(ps.files.fileType, [])));
    var r3 := FilterIf(r2, ps.files.excludeNsfw, SafePred());
    match FilterIf(r3, true, NotHiddenPred())
    case Ok(Notes(kept)) => Ok(kept)
    case Ok(_) => Err(TypeError)
    case Err(msg) => Err(msg)
  }

  /** As written, the closure throws a `TypeError` on every batch, whoever is asking. */
  lemma RecommendedClosureThrows(ps: RecommendedParams, user: Option<string>, rel: NoteRelations, instances: seq<string>)
    ensures forall notes :: RecommendedClosureAsWritten(notes, ps, user, rel, instances) == Err(TypeError)
  {
  }

  /** The notes of the store branch as written: the walk under the throwing closure, sliced to `limit`. */
  function RecommendedNotesAsWritten(ps: RecommendedParams, viewer: Option<Viewer>, m: RecommendedMeta, rel: NoteRelations,
                                     suspendedUserIds: seq<string>, re2: RegexTest, rows: seq<NoteRow>, e: Engine): Result<seq<Note>> {
    if TimelineOff(m.disableRecommendedTimeline, viewer) then Err(RtlDisabled)
    else
      var f := RecommendedFeedOf(rows, ps, ViewerId(viewer), rel, suspendedUserIds, m.recommendedInstances, re2);
      var close := (notes: seq<Note>) => RecommendedClosureAsWritten(notes, ps, ViewerId(viewer), rel, m.recommendedInstances);
      RecommendedClosureThrows(ps, ViewerId(viewer), rel, m.recommendedInstances);
      var r := PaginateThrowing(f, close, RecommendedFeed, ps.page, None, e.now, e.getTimestamp, true, e.queryLimit, e.maxPartitions);
      if r.Err? then Err(r.msg) else Ok(JsSlice(MapSeq(r.value.rows, ParseScyllaNote), 0, ps.page.limit))
  }

  /**
   * As written, an enabled timeline fails with a `TypeError` exactly when
   * the walk meets a page with rows, that is, when the same walk keeping
   * every row would return one; otherwise it answers `[]`. A disabled
   * timeline is refused as before.
   */
  lemma RecommendedAsWrittenFails(ps: RecommendedParams, viewer: Option<Viewer>, m: RecommendedMeta, rel: NoteRelations,
                                  suspendedUserIds: seq<string>, re2: RegexTest, rows: seq<NoteRow>, e: Engine)
    ensures var r := RecommendedNotesAsWritten(ps, viewer, m, rel, suspendedUserIds, re2, rows, e);
      var f := RecommendedFeedOf(rows, ps, ViewerId(viewer), rel, suspendedUserIds, m.recommendedInstances, re2);
      var probe := Paginate(KeepAll(f), RecommendedFeed, ps.page, None, e.now, e.getTimestamp, true, e.queryLimit, e.maxPartitions);
      (TimelineOff(m.disableRecommendedTimeline, viewer) ==> r == Err(RtlDisabled))
      && (!TimelineOff(m.disableRecommendedTimeline, viewer) ==>
            probe.Ok? && (r == Err(TypeError) <==> probe.value.rows != []) && (r.Err? ==> r == Err(TypeError)))
      && (r.Ok? ==> r.value == [])
  {
    if !TimelineOff(m.disableRecommendedTimeline, viewer) {
      var f := RecommendedFeedOf(rows, ps, ViewerId(viewer), rel, suspendedUserIds, m.recommendedInstances, re2);
      var close := (notes: seq<Note>) => RecommendedClosureAsWritten(notes, ps, ViewerId(viewer), rel, m.recommendedInstances);
      RecommendedClosureThrows(ps, ViewerId(viewer), rel, m.recommendedInstances);
      PaginateThrowingMeetsRow(f, close, TypeError, RecommendedFeed, ps.page, None, e.now, e.getTimestamp, true,
                               e.queryLimit, e.maxPartitions);
    }
  }
}

/**
 * The store branch of a user's note list (server/api/endpoints/users/notes.ts):
 * the target user is looked up, an early check answers nothing when the
 * viewer mutes the target, is blocked by it or mutes its instance, and
 * otherwise one read of the target's feed passes a closure of author,
 * visibility, viewer screens, media flags, renote and reply flags, and is
 * sliced to `limit`.
 */
module UserNotes {
  import opened Common
  import opened ScyllaRows
  import opened WordMute
  import opened NoteFilters
  import opened Pagination
  import opened PaginationProofs
  import opened Refetch

  /** The request; `includeReplies` and `includeMyRenotes` default to true. */
  datatype UserNotesParams = UserNotesParams(
    page: PageParams,
    userId: string,
    includeReplies: bool,
    includeMyRenotes: bool,
    files: FileFlags)

  /** The looked-up user: its id and its host (`None` for a local user). */
  datatype TargetUser = TargetUser(id: string, host: Option<string>)

  const NoSuchUser := "NO_SUCH_USER"

  /** What reading a property of `undefined` raises. */
  const TypeErrorMsg := "TypeError"

  /** `getUser(ps.userId)` over the users the instance knows, by id. */
  function LookupUser(users: map<string, Option<string>>, userId: string): (r: Option<TargetUser>)
    ensures r.Some? <==> userId in users
    ensures r.Some? ==> r.value.id == userId && r.value.host == users[userId]
  {
    if userId in users then Some(TargetUser(userId, users[userId])) else None
  }

  // ---------------------------------------------------------------------
  // The early check

  /** The viewer mutes the target, the target blocks the viewer, or the viewer mutes the target's instance. */
  predicate Shunned(target: TargetUser, rel: NoteRelations) {
    target.id in rel.mutedUserIds || target.id in rel.blockerIds
    || (Truthy(target.host) && target.host.value in rel.mutedInstances)
  }

  /**
   * The check as written: the relation lists are loaded only for a
   * signed-in viewer, so for an anonymous one they are `undefined` and
   * `mutedUserIds.includes` raises.
   */
  function EarlyEmptyAsWritten(me: Option<string>, target: TargetUser, rel: NoteRelations): Result<bool> {
    if me.None? then Err(TypeErrorMsg) else Ok(Shunned(target, rel))
  }

  /** The check as intended: an anonymous viewer mutes and is blocked by no one. */
  predicate EarlyEmpty(me: Option<string>, target: TargetUser, rel: NoteRelations) {
    me.Some? && Shunned(target, rel)
  }

  /** Every anonymous request that reaches the check fails, whatever the target and the lists. */
  lemma AnonymousViewerFails(target: TargetUser, rel: NoteRelations)
    ensures EarlyEmptyAsWritten(None, target, rel) == Err(TypeErrorMsg)
    ensures !EarlyEmpty(None, target, rel)
  {
  }

  /** For a signed-in viewer the two checks agree. */
  lemma EarlyEmptyAgrees(me: string, target: TargetUser, rel: NoteRelations)
    ensures EarlyEmptyAsWritten(Some(me), target, rel) == Ok(EarlyEmpty(Some(me), target, rel))
  {
  }

  // ---------------------------------------------------------------------
  // The word mutes

  /**
   * The word-mute loader as written: the entry cached under the viewer's
   * id, or else the mutes of the TARGET's profile (`where: { userId:
   * user.id }`), or `[]` without a profile.
   */
  function LoadedWordsAsWritten(me: string, target: string, cached: Option<seq<MutePattern>>,
                                profiles: map<string, seq<MutePattern>>): seq<MutePattern> {
    if cached.Some? then cached.value else if target in profiles then profiles[target] else []
  }

  /** The loader as every other endpoint writes it: the viewer's own profile. */
  function LoadedWords(me: string, cached: Option<seq<MutePattern>>, profiles: map<string, seq<MutePattern>>): (r: seq<MutePattern>)
    ensures cached.None? && me in profiles ==> r == profiles[me]
    ensures cached.Some? ==> r == cached.value
  {
    if cached.Some? then cached.value else if me in profiles then profiles[me] else []
  }

  /**
   * A viewer "a" who mutes the word "x", reading the list of a user "b"
   * whose profile mutes nothing, with no cached entry: as written no post
   * of "b" is word-muted; as intended every post of "b" that "x" mutes is.
   */
  lemma TargetWordsReplaceViewers(n: Note, re2: RegexTest)
    requires n.userId == "b"
    ensures var profiles := map["a" := [Keywords(["x"])], "b" := []];
      !HardMuted(n, Some("a"), LoadedWordsAsWritten("a", "b", None, profiles), re2)
      && (HardMuted(n, Some("a"), LoadedWords("a", None, profiles), re2) <==> WordMuted(Some(n), [Keywords(["x"])], re2))
  {
    var profiles := map["a" := [Keywords(["x"])], "b" := []];
    assert LoadedWordsAsWritten("a", "b", None, profiles) == [];
    assert LoadedWords("a", None, profiles) == [Keywords(["x"])];
  }

  /** With the corrected loader, a post by someone else that the viewer's own profile mutes is word-muted. */
  lemma ViewerWordsApply(n: Note, me: string, profiles: map<string, seq<MutePattern>>, re2: RegexTest)
    requires me in profiles && n.userId != me
    ensures HardMuted(n, Some(me), LoadedWords(me, None, profiles), re2)
        <==> |profiles[me]| > 0 && WordMuted(Some(n), profiles[me], re2)
  {
  }

  // ---------------------------------------------------------------------
  // The closure

  /** `n.userId !== user.id || !n.renoteId || !!n.text || n.files.length > 0 || n.hasPoll` */
  function NotOwnBareRenotePred(targetId: string): Note -> bool {
    (n: Note) => n.userId != targetId || OptFilter(n)
  }

  function NotReplyPred(): Note -> bool {
    (n: Note) => !Truthy(n.replyId)
  }

  function AuthorPred(userId: string): Note -> bool {
    (n: Note) => n.userId == userId
  }

  /** The `if (me) { ... }` block: mutes, word mutes, then blockers and blockees together. */
  function ViewerSteps(notes: seq<Note>, me: Option<string>, rel: NoteRelations, re2: RegexTest): seq<Note> {
    if me.Some? then
      var f1 := FilterMutedUser(notes, rel.mutedUserIds, rel.mutedInstances, None);
      var f2 := FilterMutedNote(f1, me.value, rel.mutedWords, re2);
      FilterBlockUser(f2, rel.blockerIds + rel.blockingIds)
    else notes
  }

  /** The endpoint's `filter` closure, step by step. */
  function UserNoteSteps(notes: seq<Note>, ps: UserNotesParams, targetId: string, me: Option<string>,
                         rel: NoteRelations, re2: RegexTest): seq<Note> {
    var f0 := Filter(notes, AuthorPred(ps.userId));
    var f1 := FilterVisibility(f0, me, rel.followingUserIds);
    var f2 := ViewerSteps(f1, me, rel, re2);
    var f3 := FileSteps(f2, ps.files);
    var f4 := if !ps.includeMyRenotes then Filter(f3, NotOwnBareRenotePred(targetId)) else f3;
    if !ps.includeReplies then Filter(f4, NotReplyPred()) else f4
  }

  /** The screens of a signed-in viewer on a user's list (renote mutes are not among them). */
  predicate ViewerScreens(n: Note, me: string, rel: NoteRelations, re2: RegexTest) {
    !MentionsMutedUser(n, rel.mutedUserIds) && !FromMutedInstance(n, rel.mutedInstances)
    && !HardMuted(n, Some(me), rel.mutedWords, re2)
    && !MentionsMutedUser(n, rel.blockerIds + rel.blockingIds)
  }

  function ViewerScreensPred(me: Option<string>, rel: NoteRelations, re2: RegexTest): Note -> bool {
    (n: Note) => me.Some? ==> ViewerScreens(n, me.value, rel, re2)
  }

  /** What the closure asks of one note. */
  predicate UserNotePass(n: Note, ps: UserNotesParams, targetId: string, me: Option<string>, rel: NoteRelations, re2: RegexTest) {
    n.userId == ps.userId
    && VisibleTo(n, me, rel.followingUserIds)
    && (me.Some? ==> ViewerScreens(n, me.value, rel, re2))
    && FilesPass(n, ps.files)
    && (!ps.includeMyRenotes ==> !(n.userId == targetId && BareRenote(n)))
    && (!ps.includeReplies ==> !IsReply(n))
  }

  function UserNotePassPred(ps: UserNotesParams, targetId: string, me: Option<string>, rel: NoteRelations, re2: RegexTest): Note -> bool {
    (n: Note) => UserNotePass(n, ps, targetId, me, rel, re2)
  }

  lemma ViewerPointwise(n: Note, me: string, rel: NoteRelations, re2: RegexTest)
    ensures Both(Both(MutedUserPred(rel.mutedUserIds, rel.mutedInstances), WordMutePred(me, rel.mutedWords, re2)),
                 BlockPred(rel.blockerIds + rel.blockingIds))(n)
         == ViewerScreensPred(Some(me), rel, re2)(n)
  {
  }

  /** The signed-in block keeps, in order, the notes `ViewerScreens` accepts; for an anonymous viewer it keeps all. */
  lemma ViewerStepsIsFilter(notes: seq<Note>, me: Option<string>, rel: NoteRelations, re2: RegexTest)
    ensures ViewerSteps(notes, me, rel, re2) == Filter(notes, ViewerScreensPred(me, rel, re2))
  {
    if me.Some? {
      var p1 := MutedUserPred(rel.mutedUserIds, rel.mutedInstances);
      var p2 := WordMutePred(me.value, rel.mutedWords, re2);
      var p3 := BlockPred(rel.blockerIds + rel.blockingIds);
      assert EffectiveMutes(rel.mutedUserIds, None) == rel.mutedUserIds;
      FilterBoth(notes, p1, p2);
      FilterBoth(notes, Both(p1, p2), p3);
      forall i | 0 <= i < |notes|
        ensures Both(Both(p1, p2), p3)(notes[i]) == ViewerScreensPred(me, rel, re2)(notes[i])
      {
        ViewerPointwise(notes[i], me.value, rel, re2);
      }
      FilterExt(notes, Both(Both(p1, p2), p3), ViewerScreensPred(me, rel, re2));
    } else {
      FilterAll(notes, ViewerScreensPred(me, rel, re2));
    }
  }

  lemma UserNotePointwise(n: Note, ps: UserNotesParams, targetId: string, me: Option<string>, rel: NoteRelations, re2: RegexTest)
    ensures Both(Both(Both(Both(Both(AuthorPred(ps.userId), VisibilityPred(me, rel.followingUserIds)),
                                ViewerScreensPred(me, rel, re2)),
                           FilesPassPred(ps.files)),
                      When(!ps.includeMyRenotes, NotOwnBareRenotePred(targetId))),
                 When(!ps.includeReplies, NotReplyPred()))(n)
         == UserNotePassPred(ps, targetId, me, rel, re2)(n)
  {
  }

  /** The closure keeps, in order, the notes `UserNotePass` accepts. */
  lemma UserNoteIsFilter(notes: seq<Note>, ps: UserNotesParams, targetId: string, me: Option<string>, rel: NoteRelations, re2: RegexTest)
    ensures UserNoteSteps(notes, ps, targetId, me, rel, re2) == Filter(notes, UserNotePassPred(ps, targetId, me, rel, re2))
  {
    var p0 := AuthorPred(ps.userId);
    var p1 := VisibilityPred(me, rel.followingUserIds);
    var p2 := ViewerScreensPred(me, rel, re2);
    var p3 := FilesPassPred(ps.files);
    var p4 := When(!ps.includeMyRenotes, NotOwnBareRenotePred(targetId));
    var p5 := When(!ps.includeReplies, NotReplyPred());
    var q1 := Both(p0, p1);
    var q2 := Both(q1, p2);
    var q3 := Both(q2, p3);
    var q4 := Both(q3, p4);
    var all := Both(q4, p5);
    FilterBoth(notes, p0, p1);
    ViewerStepsIsFilter(Filter(notes, q1), me, rel, re2);
    FilterBoth(notes, q1, p2);
    FileStepsIsFilter(Filter(notes, q2), ps.files);
    FilterBoth(notes, q2, p3);
    FilterWhen(!ps.includeMyRenotes, Filter(notes, q3), NotOwnBareRenotePred(targetId));
    FilterBoth(notes, q3, p4);
    FilterWhen(!ps.includeReplies, Filter(notes, q4), NotReplyPred());
    FilterBoth(notes, q4, p5);
    forall i | 0 <= i < |notes|
      ensures all(notes[i]) == UserNotePassPred(ps, targetId, me, rel, re2)(notes[i])
    {
      UserNotePointwise(notes[i], ps, targetId, me, rel, re2);
    }
    FilterExt(notes, all, UserNotePassPred(ps, targetId, me, rel, re2));
  }

  /**
   * Only the target's posts pass; `includeMyRenotes = false` drops exactly
   * the target's renotes that add nothing, `includeReplies = false` drops
   * every reply; with both flags on and no media flag, an anonymous viewer
   * gets every public or home post of the target.
   */
  lemma UserNoteFlags(n: Note, ps: UserNotesParams, me: Option<string>, rel: NoteRelations, re2: RegexTest)
    ensures UserNotePass(n, ps, ps.userId, me, rel, re2) ==> n.userId == ps.userId
    ensures !ps.includeMyRenotes && BareRenote(n) ==> !UserNotePass(n, ps, ps.userId, me, rel, re2)
    ensures !ps.includeMyRenotes && !BareRenote(n) ==>
      UserNotePass(n, ps, ps.userId, me, rel, re2) == UserNotePass(n, ps.(includeMyRenotes := true), ps.userId, me, rel, re2)
    ensures !ps.includeReplies && IsReply(n) ==> !UserNotePass(n, ps, ps.userId, me, rel, re2)
    ensures ps.includeReplies && ps.includeMyRenotes && ps.files == FileFlags(false, None, false) ==>
      (UserNotePass(n, ps, ps.userId, None, rel, re2) <==> n.userId == ps.userId && IsPublicOrHome(n))
  {
  }

  /** A signed-in viewer's closure drops what the viewer's mutes and blocks screen out. */
  lemma SignedInUserNotes(n: Note, ps: UserNotesParams, me: string, rel: NoteRelations, re2: RegexTest)
    ensures UserNotePass(n, ps, ps.userId, Some(me), rel, re2) ==>
      !MentionsMutedUser(n, rel.mutedUserIds) && !FromMutedInstance(n, rel.mutedInstances)
      && !HardMuted(n, Some(me), rel.mutedWords, re2)
      && !MentionsMutedUser(n, rel.blockerIds) && !MentionsMutedUser(n, rel.blockingIds)
  {
  }

  // ---------------------------------------------------------------------
  // The endpoint

  function UserFeedOf(rows: seq<NoteRow>, ps: UserNotesParams, targetId: string, me: Option<string>,
                      rel: NoteRelations, re2: RegexTest): Feed<NoteRow, Note> {
    Feed(rows, RowCreatedAt, RowAuthor, ParseScyllaNote, UserNotePassPred(ps, targetId, me, rel, re2))
  }

  /** The relations the filter reads: the cached lists, with the word mutes the loader returns for a signed-in viewer. */
  function ViewerRelations(me: Option<string>, rel: NoteRelations, cached: Option<seq<MutePattern>>,
                           profiles: map<string, seq<MutePattern>>): NoteRelations {
    if me.Some? then rel.(mutedWords := LoadedWords(me.value, cached, profiles)) else rel
  }

  /** One read of the target's feed under the closure, sliced to `limit`. */
  function UserPage(ps: UserNotesParams, targetId: string, me: Option<string>, rel: NoteRelations, re2: RegexTest,
                    rows: seq<NoteRow>, e: Engine): Result<seq<Note>> {
    var r := Paginate(UserFeedOf(rows, ps, targetId, me, rel, re2), UserFeed, ps.page, Some(targetId),
                      e.now, e.getTimestamp, true, e.queryLimit, e.maxPartitions);
    if r.Err? then Err(r.msg) else Ok(JsSlice(MapSeq(r.value.rows, ParseScyllaNote), 0, ps.page.limit))
  }

  /**
   * The page holds at most `limit` notes, newest first over a table in
   * clustering order, each a decoded row of the target's older than the
   * cursor and accepted by the closure; it fails only for an empty id.
   */
  lemma UserPageSound(ps: UserNotesParams, me: Option<string>, rel: NoteRelations, re2: RegexTest, rows: seq<NoteRow>, e: Engine)
    ensures var r := UserPage(ps, ps.userId, me, rel, re2, rows, e);
      (r.Err? <==> ps.userId == "")
      && (r.Ok? ==>
        (ps.page.limit >= 0 ==> |r.value| <= ps.page.limit)
        && (SortedDesc(rows, RowCreatedAt) ==> SortedDesc(r.value, CreatedAt))
        && forall n :: n in r.value ==>
          n in MapSeq(rows, ParseScyllaNote) && n.userId == ps.userId
          && n.createdAt < ResolveUntil(ps.page, e.now, e.getTimestamp)
          && UserNotePass(n, ps, ps.userId, me, rel, re2))
  {
    var f := UserFeedOf(rows, ps, ps.userId, me, rel, re2);
    var r := Paginate(f, UserFeed, ps.page, Some(ps.userId), e.now, e.getTimestamp, true, e.queryLimit, e.maxPartitions);
    if r.Ok? {
      if ps.page.limit >= 0 {
        JsSliceFront(MapSeq(r.value.rows, ParseScyllaNote), ps.page.limit);
      }
      SlicedNotesKept(f, UserFeed, ps.page, Some(ps.userId), e, ps.page.limit);
      if SortedDesc(rows, RowCreatedAt) {
        SlicedNotesSorted(f, UserFeed, ps.page, Some(ps.userId), e, ps.page.limit);
      }
    }
  }

  /**
   * The notes the store branch packs, with the corrected early check and
   * word-mute loader: `users` maps every known id to its host, `cached` is
   * the word-mute cache entry under the viewer's id, `profiles` the
   * profiles' mute lists. An unknown user gives `NO_SUCH_USER`, and a
   * target the signed-in viewer shuns gives nothing.
   */
  function UserNotesNotes(ps: UserNotesParams, viewer: Option<Viewer>, users: map<string, Option<string>>, rel: NoteRelations,
                          cached: Option<seq<MutePattern>>, profiles: map<string, seq<MutePattern>>, re2: RegexTest,
                          rows: seq<NoteRow>, e: Engine): (r: Result<seq<Note>>)
    ensures ps.userId !in users <==> r == Err(NoSuchUser)
    ensures ps.userId in users && viewer.Some? && Shunned(TargetUser(ps.userId, users[ps.userId]), rel) ==> r == Ok([])
    ensures ps.userId in users && !EarlyEmpty(ViewerId(viewer), TargetUser(ps.userId, users[ps.userId]), rel) ==>
      r == UserPage(ps, ps.userId, ViewerId(viewer), ViewerRelations(ViewerId(viewer), rel, cached, profiles), re2, rows, e)
  {
    var target := LookupUser(users, ps.userId);
    if target.None? then Err(NoSuchUser)
    else
      var me := ViewerId(viewer);
      var rel' := ViewerRelations(me, rel, cached, profiles);
      if EarlyEmpty(me, target.value, rel') then Ok([])
      else UserPage(ps, target.value.id, me, rel', re2, rows, e)
  }

  /** With the corrected check, an anonymous viewer's request for a known user is never cut short. */
  lemma AnonymousReachesFeed(ps: UserNotesParams, users: map<string, Option<string>>, rel: NoteRelations,
                             cached: Option<seq<MutePattern>>, profiles: map<string, seq<MutePattern>>, re2: RegexTest,
                             rows: seq<NoteRow>, e: Engine)
    requires ps.userId in users && ps.userId != ""
    ensures UserNotesNotes(ps, None, users, rel, cached, profiles, re2, rows, e) == UserPage(ps, ps.userId, None, rel, re2, rows, e)
    ensures UserNotesNotes(ps, None, users, rel, cached, profiles, re2, rows, e).Ok?
  {
    UserPageSound(ps, None, rel, re2, rows, e);
  }

  /** What the store branch answers; `pack` is `Notes.packMany`. */
  function UserNotesResult<P>(ps: UserNotesParams, viewer: Option<Viewer>, users: map<string, Option<string>>, rel: NoteRelations,
                              cached: Option<seq<MutePattern>>, profiles: map<string, seq<MutePattern>>, re2: RegexTest,
                              rows: seq<NoteRow>, e: Engine, pack: seq<Note> -> seq<P>): Result<seq<P>> {
    var r := UserNotesNotes(ps, viewer, users, rel, cached, profiles, re2, rows, e);
    if r.Err? then Err(r.msg) else Ok(pack(r.value))
  }

  /** The endpoint's store branch, with the corrected early check and word-mute loader. */
  method UserNotesStore<P>(ps: UserNotesParams, viewer: Option<Viewer>, users: map<string, Option<string>>, rel: NoteRelations,
                           cached: Option<seq<MutePattern>>, profiles: map<string, seq<MutePattern>>, re2: RegexTest,
                           rows: seq<NoteRow>, e: Engine, pack: seq<Note> -> seq<P>) returns (r: Result<seq<P>>)
    ensures r == UserNotesResult(ps, viewer, users, rel, cached, profiles, re2, rows, e, pack)
  {
    var target := LookupUser(users, ps.userId);
    if target.None? {
      return Err(NoSuchUser);
    }
    var me := ViewerId(viewer);
    var rel' := ViewerRelations(me, rel, cached, profiles);
    if EarlyEmpty(me, target.value, rel') {
      return Ok(pack([]));
    }
    var f := UserFeedOf(rows, ps, target.value.id, me, rel', re2);
    var found, _ := ExecPaginationQuery(f, UserFeed, ps.page, Some(target.value.id), e.now, e.getTimestamp, true,
                                        e.queryLimit, e.maxPartitions);
    if found.Err? {
      return Err(found.msg);
    }
    return Ok(pack(JsSlice(found.value, 0, ps.page.limit)));
  }
}

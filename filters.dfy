/**
 * The note filters every store-backed timeline is assembled from
 * (db/scylla.ts). Each one keeps, in order, the notes satisfying a
 * predicate over the note and the viewer's relationships. The lists the
 * source reads from a cache when the caller does not pass them (followings,
 * mutings, blockings) are parameters here.
 */
module NoteFilters {
  import opened Common
  import opened ScyllaRows
  import opened WordMute

  predicate IsPublicOrHome(n: Note) {
    n.visibility == Public || n.visibility == HomeOnly
  }

  /** Whether the viewer may see a note, given the users the viewer follows. */
  predicate VisibleTo(n: Note, user: Option<string>, followingIds: seq<string>) {
    IsPublicOrHome(n)
    || (user.Some? &&
        (n.userId == user.value
         || user.value in n.visibleUserIds
         || user.value in n.mentions
         || (n.visibility == Followers && (n.userId in followingIds || n.replyUserId == Some(user.value)))))
  }

  function VisibilityPred(user: Option<string>, followingIds: seq<string>): Note -> bool {
    (n: Note) => VisibleTo(n, user, followingIds)
  }

  /** `filterVisibility` */
  function FilterVisibility(notes: seq<Note>, user: Option<string>, followingIds: seq<string>): (r: seq<Note>)
    ensures IsSubseq(r, notes)
    ensures forall n :: n in r ==> n in notes
    ensures user.None? ==> forall n :: n in r <==> n in notes && IsPublicOrHome(n)
    ensures forall n :: n in notes && IsPublicOrHome(n) ==> n in r
    ensures user.Some? ==> forall n :: n in notes && (n.userId == user.value || user.value in n.visibleUserIds || user.value in n.mentions) ==> n in r
    ensures user.Some? ==> forall n :: n in notes && n.visibility == Followers && n.userId != user.value && user.value !in n.visibleUserIds && user.value !in n.mentions ==>
      (n in r <==> n.userId in followingIds || n.replyUserId == Some(user.value))
    ensures forall n :: n in notes && n.visibility == Specified ==>
      (n in r <==> user.Some? && (n.userId == user.value || user.value in n.visibleUserIds || user.value in n.mentions))
  {
    var p := VisibilityPred(user, followingIds);
    FilterIsSubseq(notes, p);
    Filter(notes, p)
  }

  /** Filtering for visibility twice changes nothing. */
  lemma FilterVisibilityIdempotent(notes: seq<Note>, user: Option<string>, followingIds: seq<string>)
    ensures FilterVisibility(FilterVisibility(notes, user, followingIds), user, followingIds) == FilterVisibility(notes, user, followingIds)
  {
    FilterIdempotent(notes, VisibilityPred(user, followingIds));
  }

  /** A signed-in viewer sees every note an anonymous viewer sees, in the same order. */
  lemma SignedInSeesMore(notes: seq<Note>, me: string, followingIds: seq<string>)
    ensures IsSubseq(FilterVisibility(notes, None, followingIds), FilterVisibility(notes, Some(me), followingIds))
  {
    FilterMonotone(notes, VisibilityPred(None, followingIds), VisibilityPred(Some(me), followingIds));
  }

  /** Following more users never hides a note. */
  lemma FollowingMoreSeesMore(notes: seq<Note>, user: Option<string>, a: seq<string>, b: seq<string>)
    requires forall x :: x in a ==> x in b
    ensures IsSubseq(FilterVisibility(notes, user, a), FilterVisibility(notes, user, b))
  {
    FilterMonotone(notes, VisibilityPred(user, a), VisibilityPred(user, b));
  }

  // ---------------------------------------------------------------------

  predicate HasChannel(n: Note) {
    Truthy(n.channelId)
  }

  /** Outside channels, or in a channel the viewer follows. */
  predicate ChannelVisible(n: Note, user: Option<string>, followings: seq<string>) {
    !HasChannel(n) || (user.Some? && n.channelId.value in followings)
  }

  function ChannelPred(user: Option<string>, followings: seq<string>): Note -> bool {
    (n: Note) => ChannelVisible(n, user, followings)
  }

  function HasChannelPred(): Note -> bool {
    (n: Note) => HasChannel(n)
  }

  /**
   * `filterChannel`: anonymous viewers see no channel notes; a signed-in
   * viewer sees the channel notes of followed channels. The source skips the
   * second pass when the batch has no channel note; the result is the same.
   */
  function FilterChannel(notes: seq<Note>, user: Option<string>, followings: seq<string>): (r: seq<Note>)
    ensures r == Filter(notes, ChannelPred(user, followings))
    ensures IsSubseq(r, notes)
    ensures forall n :: n in notes && !HasChannel(n) ==> n in r
    ensures forall n :: n in r ==> !HasChannel(n) || (user.Some? && n.channelId.value in followings)
  {
    FilterIsSubseq(notes, ChannelPred(user, followings));
    if user.None? then
      var r := Filter(notes, (n: Note) => !HasChannel(n));
      FilterExt(notes, (n: Note) => !HasChannel(n), ChannelPred(user, followings));
      r
    else if |Filter(notes, HasChannelPred())| > 0 then
      Filter(notes, ChannelPred(user, followings))
    else
      forall i | 0 <= i < |notes|
        ensures !HasChannel(notes[i])
      {
        assert notes[i] in notes;
      }
      FilterAll(notes, ChannelPred(user, followings));
      notes
  }

  // ---------------------------------------------------------------------

  predicate IsReply(n: Note) {
    Truthy(n.replyId)
  }

  /** Replies to oneself always show; otherwise the reply rules depend on the viewer. */
  predicate ReplyVisible(n: Note, withReplies: bool, user: Option<string>) {
    if user.None? then !IsReply(n) || n.replyUserId == Some(n.userId)
    else if !withReplies then
      !IsReply(n) || n.replyUserId == Some(user.value) || n.userId == user.value || n.replyUserId == Some(n.userId)
    else true
  }

  function ReplyPred(withReplies: bool, user: Option<string>): Note -> bool {
    (n: Note) => ReplyVisible(n, withReplies, user)
  }

  /** `filterReply` */
  function FilterReply(notes: seq<Note>, withReplies: bool, user: Option<string>): (r: seq<Note>)
    ensures user.Some? && withReplies ==> r == notes
    ensures r == Filter(notes, ReplyPred(withReplies, user))
    ensures IsSubseq(r, notes)
    ensures forall n :: n in notes && (!IsReply(n) || n.replyUserId == Some(n.userId)) ==> n in r
    ensures user.None? ==> forall n :: n in r ==> !IsReply(n) || n.replyUserId == Some(n.userId)
    ensures user.Some? && !withReplies ==> forall n :: n in notes && (n.userId == user.value || n.replyUserId == Some(user.value)) ==> n in r
  {
    FilterIsSubseq(notes, ReplyPred(withReplies, user));
    if user.Some? && withReplies then
      FilterAll(notes, ReplyPred(withReplies, user));
      SubseqRefl(notes);
      notes
    else Filter(notes, ReplyPred(withReplies, user))
  }

  /** Signing in never hides a reply an anonymous viewer would see. */
  lemma ReplyAnonymousSeesLess(notes: seq<Note>, withReplies: bool, me: string)
    ensures IsSubseq(FilterReply(notes, withReplies, None), FilterReply(notes, withReplies, Some(me)))
  {
    FilterMonotone(notes, ReplyPred(withReplies, None), ReplyPred(withReplies, Some(me)));
  }

  // ---------------------------------------------------------------------

  /** The muted ids after removing the excluded user's id (`filterMutedUser`'s `exclude`). */
  function EffectiveMutes(mutedIds: seq<string>, exclude: Option<string>): (r: seq<string>)
    ensures forall x :: x in r <==> x in mutedIds && exclude != Some(x)
  {
    if exclude.Some? then Filter(mutedIds, (x: string) => x != exclude.value) else mutedIds
  }

  predicate MentionsMutedUser(n: Note, ids: seq<string>) {
    n.userId in ids
    || (Truthy(n.replyUserId) && n.replyUserId.value in ids)
    || (Truthy(n.renoteUserId) && n.renoteUserId.value in ids)
  }

  predicate FromMutedInstance(n: Note, instances: seq<string>) {
    (Truthy(n.userHost) && n.userHost.value in instances)
    || (Truthy(n.replyUserHost) && n.replyUserHost.value in instances)
    || (Truthy(n.renoteUserHost) && n.renoteUserHost.value in instances)
  }

  function MutedUserPred(ids: seq<string>, instances: seq<string>): Note -> bool {
    (n: Note) => !MentionsMutedUser(n, ids) && !FromMutedInstance(n, instances)
  }

  /**
   * `filterMutedUser`: drops notes written by, replying to or renoting a
   * muted user, and notes whose author, reply author or renote author is on
   * a muted instance.
   */
  function FilterMutedUser(notes: seq<Note>, mutedIds: seq<string>, mutedInstances: seq<string>, exclude: Option<string>): (r: seq<Note>)
    ensures IsSubseq(r, notes)
    ensures forall n :: n in r ==> n in notes
    ensures forall n :: n in r ==> n.userId !in mutedIds || exclude == Some(n.userId)
    ensures forall n :: n in r ==> !(Truthy(n.replyUserId) && n.replyUserId.value in mutedIds && exclude != n.replyUserId)
    ensures forall n :: n in r ==> !(Truthy(n.renoteUserId) && n.renoteUserId.value in mutedIds && exclude != n.renoteUserId)
    ensures forall n :: n in r ==> !FromMutedInstance(n, mutedInstances)
    ensures forall n :: n in notes && !MentionsMutedUser(n, mutedIds) && !FromMutedInstance(n, mutedInstances) ==> n in r
  {
    var ids := EffectiveMutes(mutedIds, exclude);
    FilterIsSubseq(notes, MutedUserPred(ids, mutedInstances));
    Filter(notes, MutedUserPred(ids, mutedInstances))
  }

  /** The excluded user's own notes survive even when that user is muted. */
  lemma ExcludedAuthorKept(notes: seq<Note>, mutedIds: seq<string>, mutedInstances: seq<string>, n: Note)
    requires n in notes
    requires !(Truthy(n.replyUserId) && n.replyUserId.value in mutedIds && n.replyUserId.value != n.userId)
    requires !(Truthy(n.renoteUserId) && n.renoteUserId.value in mutedIds && n.renoteUserId.value != n.userId)
    requires !FromMutedInstance(n, mutedInstances)
    ensures n in FilterMutedUser(notes, mutedIds, mutedInstances, Some(n.userId))
  {
    var ids := EffectiveMutes(mutedIds, Some(n.userId));
    assert !MentionsMutedUser(n, ids);
  }

  // ---------------------------------------------------------------------

  function WordMutePred(me: string, mutedWords: seq<MutePattern>, re2: RegexTest): Note -> bool {
    (n: Note) => !HardMuted(n, Some(me), mutedWords, re2)
  }

  /** `filterMutedNote`: drops the notes the viewer's hard word mutes match; the viewer's own notes stay. */
  function FilterMutedNote(notes: seq<Note>, me: string, mutedWords: seq<MutePattern>, re2: RegexTest): (r: seq<Note>)
    ensures |mutedWords| == 0 ==> r == notes
    ensures r == Filter(notes, WordMutePred(me, mutedWords, re2))
    ensures IsSubseq(r, notes)
    ensures forall n :: n in r <==> n in notes && !HardMuted(n, Some(me), mutedWords, re2)
    ensures forall n :: n in notes && n.userId == me ==> n in r
  {
    FilterIsSubseq(notes, WordMutePred(me, mutedWords, re2));
    if |mutedWords| > 0 then Filter(notes, WordMutePred(me, mutedWords, re2))
    else
      FilterAll(notes, WordMutePred(me, mutedWords, re2));
      notes
  }

  // ---------------------------------------------------------------------

  function BlockPred(ids: seq<string>): Note -> bool {
    (n: Note) => !MentionsMutedUser(n, ids)
  }

  /** `filterBlockUser`: drops notes written by, replying to or renoting a blocked or blocking user. */
  function FilterBlockUser(notes: seq<Note>, blockIds: seq<string>): (r: seq<Note>)
    ensures IsSubseq(r, notes)
    ensures forall n :: n in r ==> n in notes && n.userId !in blockIds
    ensures forall n :: n in r ==> !(Truthy(n.replyUserId) && n.replyUserId.value in blockIds)
    ensures forall n :: n in r ==> !(Truthy(n.renoteUserId) && n.renoteUserId.value in blockIds)
    ensures forall n :: n in notes && !MentionsMutedUser(n, blockIds) ==> n in r
  {
    FilterIsSubseq(notes, BlockPred(blockIds));
    Filter(notes, BlockPred(blockIds))
  }

  /** Blocking more users never shows more notes. */
  lemma BlockingMoreShowsLess(notes: seq<Note>, a: seq<string>, b: seq<string>)
    requires forall x :: x in a ==> x in b
    ensures IsSubseq(FilterBlockUser(notes, b), FilterBlockUser(notes, a))
  {
    FilterMonotone(notes, BlockPred(b), BlockPred(a));
  }

  // ---------------------------------------------------------------------

  /** A renote without text of its own. */
  predicate IsPureRenote(n: Note) {
    !Truthy(n.text) && Truthy(n.renoteId)
  }

  function RenoteMutePred(ids: seq<string>): Note -> bool {
    (n: Note) => !(IsPureRenote(n) && n.userId in ids)
  }

  /** `filterMutedRenotes`: drops the pure renotes made by users whose renotes the viewer muted. */
  function FilterMutedRenotes(notes: seq<Note>, muteeIds: seq<string>): (r: seq<Note>)
    ensures IsSubseq(r, notes)
    ensures forall n :: n in r <==> n in notes && !(IsPureRenote(n) && n.userId in muteeIds)
    ensures forall n :: n in notes && !IsPureRenote(n) ==> n in r
  {
    FilterIsSubseq(notes, RenoteMutePred(muteeIds));
    Filter(notes, RenoteMutePred(muteeIds))
  }

  // ---------------------------------------------------------------------
  // A second pass of any filter over its own result removes nothing.

  lemma FilterChannelIdempotent(notes: seq<Note>, user: Option<string>, followings: seq<string>)
    ensures FilterChannel(FilterChannel(notes, user, followings), user, followings) == FilterChannel(notes, user, followings)
  {
    FilterIdempotent(notes, ChannelPred(user, followings));
  }

  lemma FilterReplyIdempotent(notes: seq<Note>, withReplies: bool, user: Option<string>)
    ensures FilterReply(FilterReply(notes, withReplies, user), withReplies, user) == FilterReply(notes, withReplies, user)
  {
    FilterIdempotent(notes, ReplyPred(withReplies, user));
  }

  lemma FilterMutedUserIdempotent(notes: seq<Note>, mutedIds: seq<string>, mutedInstances: seq<string>, exclude: Option<string>)
    ensures FilterMutedUser(FilterMutedUser(notes, mutedIds, mutedInstances, exclude), mutedIds, mutedInstances, exclude)
         == FilterMutedUser(notes, mutedIds, mutedInstances, exclude)
  {
    FilterIdempotent(notes, MutedUserPred(EffectiveMutes(mutedIds, exclude), mutedInstances));
  }

  lemma FilterMutedNoteIdempotent(notes: seq<Note>, me: string, mutedWords: seq<MutePattern>, re2: RegexTest)
    ensures FilterMutedNote(FilterMutedNote(notes, me, mutedWords, re2), me, mutedWords, re2) == FilterMutedNote(notes, me, mutedWords, re2)
  {
    FilterIdempotent(notes, WordMutePred(me, mutedWords, re2));
  }

  lemma FilterBlockUserIdempotent(notes: seq<Note>, blockIds: seq<string>)
    ensures FilterBlockUser(FilterBlockUser(notes, blockIds), blockIds) == FilterBlockUser(notes, blockIds)
  {
    FilterIdempotent(notes, BlockPred(blockIds));
  }

  lemma FilterMutedRenotesIdempotent(notes: seq<Note>, muteeIds: seq<string>)
    ensures FilterMutedRenotes(FilterMutedRenotes(notes, muteeIds), muteeIds) == FilterMutedRenotes(notes, muteeIds)
  {
    FilterIdempotent(notes, RenoteMutePred(muteeIds));
  }

  /** The filters are independent of one another: applying two of them in either order gives the same notes. */
  lemma BlockAndVisibilityCommute(notes: seq<Note>, user: Option<string>, followingIds: seq<string>, blockIds: seq<string>)
    ensures FilterBlockUser(FilterVisibility(notes, user, followingIds), blockIds)
         == FilterVisibility(FilterBlockUser(notes, blockIds), user, followingIds)
  {
    FilterCommute(notes, VisibilityPred(user, followingIds), BlockPred(blockIds));
  }

  // ---------------------------------------------------------------------
  // The compositions the timelines share

  /** The viewer's relationships, as the caches return them. */
  datatype NoteRelations = NoteRelations(
    followingChannelIds: seq<string>,
    followingUserIds: seq<string>,
    mutedUserIds: seq<string>,
    mutedInstances: seq<string>,
    mutedWords: seq<MutePattern>,
    blockerIds: seq<string>,
    blockingIds: seq<string>,
    renoteMutedIds: seq<string>)

  /** `filterChannel`, then `filterReply`, then `filterVisibility`, as every timeline starts. */
  function Audience(notes: seq<Note>, user: Option<string>, rel: NoteRelations, withReplies: bool): seq<Note> {
    var f1 := FilterChannel(notes, user, rel.followingChannelIds);
    var f2 := FilterReply(f1, withReplies, user);
    FilterVisibility(f2, user, rel.followingUserIds)
  }

  /** What the first three filters ask of one note. */
  predicate InAudience(n: Note, user: Option<string>, rel: NoteRelations, withReplies: bool) {
    ChannelVisible(n, user, rel.followingChannelIds) && ReplyVisible(n, withReplies, user)
    && VisibleTo(n, user, rel.followingUserIds)
  }

  function AudiencePred(user: Option<string>, rel: NoteRelations, withReplies: bool): Note -> bool {
    (n: Note) => InAudience(n, user, rel, withReplies)
  }

  /** The three filters in a row keep, in order, the notes `InAudience` accepts. */
  lemma AudienceIsFilter(notes: seq<Note>, user: Option<string>, rel: NoteRelations, withReplies: bool)
    ensures Audience(notes, user, rel, withReplies) == Filter(notes, AudiencePred(user, rel, withReplies))
  {
    var p1 := ChannelPred(user, rel.followingChannelIds);
    var p2 := ReplyPred(withReplies, user);
    var p3 := VisibilityPred(user, rel.followingUserIds);
    FilterBoth(notes, p1, p2);
    FilterBoth(notes, Both(p1, p2), p3);
    forall i | 0 <= i < |notes|
      ensures Both(Both(p1, p2), p3)(notes[i]) == AudiencePred(user, rel, withReplies)(notes[i])
    {
      AudiencePointwise(notes[i], user, rel, withReplies);
    }
    FilterExt(notes, Both(Both(p1, p2), p3), AudiencePred(user, rel, withReplies));
  }

  lemma AudiencePointwise(n: Note, user: Option<string>, rel: NoteRelations, withReplies: bool)
    ensures Both(Both(ChannelPred(user, rel.followingChannelIds), ReplyPred(withReplies, user)), VisibilityPred(user, rel.followingUserIds))(n)
         == AudiencePred(user, rel, withReplies)(n)
  {
  }

  /**
   * `filterMutedUser`, `filterMutedNote`, `filterBlockUser` over blockers and
   * blockees together, then `filterMutedRenotes`: the signed-in viewer's
   * own screens.
   */
  function Shun(notes: seq<Note>, me: string, rel: NoteRelations, re2: RegexTest): seq<Note> {
    var f1 := FilterMutedUser(notes, rel.mutedUserIds, rel.mutedInstances, None);
    var f2 := FilterMutedNote(f1, me, rel.mutedWords, re2);
    var f3 := FilterBlockUser(f2, rel.blockerIds + rel.blockingIds);
    FilterMutedRenotes(f3, rel.renoteMutedIds)
  }

  /** The screens as one filter each. */
  lemma ShunSteps(notes: seq<Note>, me: string, rel: NoteRelations, re2: RegexTest)
    ensures Shun(notes, me, rel, re2)
         == Filter(Filter(Filter(Filter(notes, MutedUserPred(rel.mutedUserIds, rel.mutedInstances)),
                                  WordMutePred(me, rel.mutedWords, re2)),
                           BlockPred(rel.blockerIds + rel.blockingIds)),
                    RenoteMutePred(rel.renoteMutedIds))
  {
    assert EffectiveMutes(rel.mutedUserIds, None) == rel.mutedUserIds;
  }

  lemma UnshunnedPointwise(n: Note, me: string, rel: NoteRelations, re2: RegexTest)
    ensures Both(Both(Both(MutedUserPred(rel.mutedUserIds, rel.mutedInstances), WordMutePred(me, rel.mutedWords, re2)),
                      BlockPred(rel.blockerIds + rel.blockingIds)), RenoteMutePred(rel.renoteMutedIds))(n)
         == UnshunnedPred(me, rel, re2)(n)
  {
  }

  /** What the four screens ask of one note. */
  predicate Unshunned(n: Note, me: string, rel: NoteRelations, re2: RegexTest) {
    !MentionsMutedUser(n, rel.mutedUserIds) && !FromMutedInstance(n, rel.mutedInstances)
    && !HardMuted(n, Some(me), rel.mutedWords, re2)
    && !MentionsMutedUser(n, rel.blockerIds + rel.blockingIds)
    && !(IsPureRenote(n) && n.userId in rel.renoteMutedIds)
  }

  function UnshunnedPred(me: string, rel: NoteRelations, re2: RegexTest): Note -> bool {
    (n: Note) => Unshunned(n, me, rel, re2)
  }

  /** The four screens in a row keep, in order, the notes `Unshunned` accepts. */
  lemma ShunIsFilter(notes: seq<Note>, me: string, rel: NoteRelations, re2: RegexTest)
    ensures Shun(notes, me, rel, re2) == Filter(notes, UnshunnedPred(me, rel, re2))
  {
    var p1 := MutedUserPred(rel.mutedUserIds, rel.mutedInstances);
    var p2 := WordMutePred(me, rel.mutedWords, re2);
    var p3 := BlockPred(rel.blockerIds + rel.blockingIds);
    var p4 := RenoteMutePred(rel.renoteMutedIds);
    ShunSteps(notes, me, rel, re2);
    FilterBoth(notes, p1, p2);
    FilterBoth(notes, Both(p1, p2), p3);
    FilterBoth(notes, Both(Both(p1, p2), p3), p4);
    forall i | 0 <= i < |notes|
      ensures Both(Both(Both(p1, p2), p3), p4)(notes[i]) == UnshunnedPred(me, rel, re2)(notes[i])
    {
      UnshunnedPointwise(notes[i], me, rel, re2);
    }
    FilterExt(notes, Both(Both(Both(p1, p2), p3), p4), UnshunnedPred(me, rel, re2));
  }

  // ---------------------------------------------------------------------
  // Flag filters the timeline endpoints share

  /** `optFilter`: not a renote, or a renote with text, files or a poll of its own. */
  predicate OptFilter(n: Note) {
    !Truthy(n.renoteId) || Truthy(n.text) || |n.files| > 0 || n.hasPoll
  }

  /** A renote that adds nothing: no text, no files, no poll. */
  predicate BareRenote(n: Note) {
    Truthy(n.renoteId) && !Truthy(n.text) && |n.files| == 0 && !n.hasPoll
  }

  /** `n.files.length > 0` */
  function HasFilesPred(): Note -> bool {
    (n: Note) => |n.files| > 0
  }

  /** `n.visibility !== "hidden"` */
  function NotHiddenPred(): Note -> bool {
    (n: Note) => n.visibility != Hidden
  }

  /**
   * The ids the public feeds pass to `filterBlockUser`: blockers and
   * blockees (none for an anonymous viewer), then every suspended user.
   */
  function BlockIds(user: Option<string>, rel: NoteRelations, suspendedUserIds: seq<string>): (r: seq<string>)
    ensures forall x :: x in suspendedUserIds ==> x in r
    ensures user.None? ==> forall x :: x in r <==> x in suspendedUserIds
    ensures user.Some? ==> forall x :: x in r <==> x in rel.blockerIds || x in rel.blockingIds || x in suspendedUserIds
  {
    (if user.Some? then rel.blockerIds + rel.blockingIds else []) + suspendedUserIds
  }

  /** The mute, word, block and renote-mute steps, applied only for a signed-in viewer. */
  function MaybeUnshunnedPred(user: Option<string>, rel: NoteRelations, re2: RegexTest): Note -> bool {
    (n: Note) => user.Some? ==> Unshunned(n, user.value, rel, re2)
  }

  /** `if (user) { ...the four steps... }` is one filter. */
  lemma MaybeShunIsFilter(notes: seq<Note>, user: Option<string>, rel: NoteRelations, re2: RegexTest)
    ensures (if user.Some? then Shun(notes, user.value, rel, re2) else notes) == Filter(notes, MaybeUnshunnedPred(user, rel, re2))
  {
    if user.Some? {
      ShunIsFilter(notes, user.value, rel, re2);
      FilterExt(notes, UnshunnedPred(user.value, rel, re2), MaybeUnshunnedPred(user, rel, re2));
    } else {
      FilterAll(notes, MaybeUnshunnedPred(user, rel, re2));
    }
  }

  // ---------------------------------------------------------------------
  // Media flags

  /** `withFiles`, `fileType` (absent unless given) and `excludeNsfw`, as the note endpoints accept them. */
  datatype FileFlags = FileFlags(withFiles: bool, fileType: Option<seq<string>>, excludeNsfw: bool)

  /** `n.files.some((f) => ps.fileType.includes(f.type))` */
  predicate SomeFileOfType(files: seq<DriveFile>, types: seq<string>) {
    exists f :: f in files && f.mime in types
  }

  /** `n.files.every((f) => !f.isSensitive)` */
  predicate NoSensitiveFile(files: seq<DriveFile>) {
    forall f :: f in files ==> !f.isSensitive
  }

  function FileTypePred(types: seq<string>): Note -> bool {
    (n: Note) => SomeFileOfType(n.files, types)
  }

  function SafePred(): Note -> bool {
    (n: Note) => !Truthy(n.cw) && NoSensitiveFile(n.files)
  }

  /** The three media filters, in the order the endpoints apply them. */
  function FileSteps(notes: seq<Note>, fl: FileFlags): seq<Note> {
    var f1 := if fl.withFiles then Filter(notes, HasFilesPred()) else notes;
    var f2 := if fl.fileType.Some? then Filter(f1, FileTypePred(fl.fileType.value)) else f1;
    if fl.excludeNsfw then Filter(f2, SafePred()) else f2
  }

  /** What the media flags ask of one note. */
  predicate FilesPass(n: Note, fl: FileFlags) {
    (fl.withFiles ==> |n.files| > 0)
    && (fl.fileType.Some? ==> SomeFileOfType(n.files, fl.fileType.value))
    && (fl.excludeNsfw ==> !Truthy(n.cw) && NoSensitiveFile(n.files))
  }

  function FilesPassPred(fl: FileFlags): Note -> bool {
    (n: Note) => FilesPass(n, fl)
  }

  lemma FilesPointwise(n: Note, fl: FileFlags)
    ensures Both(Both(When(fl.withFiles, HasFilesPred()), When(fl.fileType.Some?, FileTypePred(OrElse(fl.fileType, [])))),
                 When(fl.excludeNsfw, SafePred()))(n)
         == FilesPassPred(fl)(n)
  {
  }

  /** The media steps keep, in order, the notes `FilesPass` accepts. */
  lemma FileStepsIsFilter(notes: seq<Note>, fl: FileFlags)
    ensures FileSteps(notes, fl) == Filter(notes, FilesPassPred(fl))
  {
    var w1 := When(fl.withFiles, HasFilesPred());
    var w2 := When(fl.fileType.Some?, FileTypePred(OrElse(fl.fileType, [])));
    var w3 := When(fl.excludeNsfw, SafePred());
    FilterWhen(fl.withFiles, notes, HasFilesPred());
    FilterWhen(fl.fileType.Some?, Filter(notes, w1), FileTypePred(OrElse(fl.fileType, [])));
    FilterBoth(notes, w1, w2);
    FilterWhen(fl.excludeNsfw, Filter(notes, Both(w1, w2)), SafePred());
    FilterBoth(notes, Both(w1, w2), w3);
    forall i | 0 <= i < |notes|
      ensures Both(Both(w1, w2), w3)(notes[i]) == FilesPassPred(fl)(notes[i])
    {
      FilesPointwise(notes[i], fl);
    }
    FilterExt(notes, Both(Both(w1, w2), w3), FilesPassPred(fl));
  }

  /**
   * The media flags: `fileType` keeps notes with a file of a listed type (an
   * empty list keeps nothing), `excludeNsfw` drops notes with a cw or a
   * sensitive file, and with no flag set every note passes.
   */
  lemma FileFlagsMeaning(n: Note, fl: FileFlags)
    ensures fl.withFiles && FilesPass(n, fl) ==> |n.files| > 0
    ensures fl.fileType == Some([]) ==> !FilesPass(n, fl)
    ensures fl.fileType.Some? && FilesPass(n, fl) ==> exists f :: f in n.files && f.mime in fl.fileType.value
    ensures fl.excludeNsfw && (Truthy(n.cw) || exists f :: f in n.files && f.isSensitive) ==> !FilesPass(n, fl)
    ensures fl == FileFlags(false, None, false) ==> FilesPass(n, fl)
  {
  }

  /** The media flags, then `visibility !== "hidden"`, as the public timelines end. */
  predicate Shown(n: Note, fl: FileFlags) {
    FilesPass(n, fl) && n.visibility != Hidden
  }

  function ShownPred(fl: FileFlags): Note -> bool {
    (n: Note) => Shown(n, fl)
  }

  /** The media steps and the hidden rule keep, in order, the notes `Shown` accepts. */
  lemma ShownIsFilter(notes: seq<Note>, fl: FileFlags)
    ensures Filter(FileSteps(notes, fl), NotHiddenPred()) == Filter(notes, ShownPred(fl))
  {
    FileStepsIsFilter(notes, fl);
    FilterBoth(notes, FilesPassPred(fl), NotHiddenPred());
    FilterExt(notes, Both(FilesPassPred(fl), NotHiddenPred()), ShownPred(fl));
  }

  // ---------------------------------------------------------------------
  // Calls that are not awaited

  /** The error class JavaScript raises for a method call on a value that lacks it, or a spread of a non-iterable. */
  const TypeError := "TypeError"

  /**
   * What a variable holds in the endpoints that call the filters above
   * without `await`: the array of notes, a Promise whose answer the model
   * does not follow, or a Promise that rejects with a `TypeError`.
   */
  datatype Held = Notes(notes: seq<Note>) | Pending | Rejecting

  /**
   * An unawaited call of one of the `async` filters above on `arg`. It
   * always yields a Promise. Given a Promise, a filter whose body calls
   * `notes.filter` on the path taken (`callsFilter`) rejects, and one that hands
   * its argument back takes on that Promise's outcome.
   */
  function Unawaited(arg: Held, callsFilter: bool): (r: Held)
    ensures !r.Notes?
    ensures !arg.Notes? && callsFilter ==> r == Rejecting
  {
    if arg.Notes? then Pending
    else if callsFilter then Rejecting
    else arg
  }

  /** `held.filter(p)` when `apply` holds: an array is filtered, a Promise has no `filter` method. */
  function FilterIf(held: Result<Held>, apply: bool, p: Note -> bool): Result<Held> {
    if held.Err? || !apply then held
    else if held.value.Notes? then Ok(Notes(Filter(held.value.notes, p)))
    else Err(TypeError)
  }
}

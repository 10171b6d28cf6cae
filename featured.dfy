/**
 * The store branch of the featured notes (server/api/endpoints/notes/featured.ts):
 * day by day, newest day first, the scored posts of one UTC day are read
 * from `score_feed`, filtered by origin, blocks and suspensions (and the
 * viewer's mutes when signed in) and collected, until 30 posts are found
 * or `days` days are searched; the collection is then sorted newest first
 * and cut to `[offset, offset + limit)`.
 */
module Featured {
  import opened Common
  import opened ScyllaRows
  import opened WordMute
  import opened NoteFilters
  import opened Refetch

  /** `origin`: "combined", "local" (the default) or "remote". */
  datatype Origin = Combined | LocalOrigin | RemoteOrigin

  /** The request; `offset` has no lower bound in the parameter schema. */
  datatype FeaturedParams = FeaturedParams(limit: int, offset: int, origin: Origin, days: int)

  /** The scan stops once this many posts are collected. */
  const MaxFound := 30

  /** `ONEDAY`, one day in milliseconds. */
  const OneDay := 86_400_000

  /** A row of `score_feed` of the UTC day of `t` with a positive score. */
  function ScoreDayPred(t: int): NoteRow -> bool {
    (r: NoteRow) => Day(r.createdAt) == Day(t) && r.score > 0
  }

  /** `SELECT * FROM score_feed WHERE "createdAtDate" = ? AND "score" > 0`, bound to `t`, parsed. */
  function ScoreDay(rows: seq<NoteRow>, t: int): seq<Note> {
    MapSeq(Filter(rows, ScoreDayPred(t)), ParseScyllaNote)
  }

  /** The query returns parsed rows of the table, of the day of `t`, with a positive score. */
  lemma ScoreDaySound(rows: seq<NoteRow>, t: int, n: Note)
    requires n in ScoreDay(rows, t)
    ensures n in MapSeq(rows, ParseScyllaNote) && Day(n.createdAt) == Day(t) && n.score > 0
  {
    var hits := Filter(rows, ScoreDayPred(t));
    MapSeqMembers(hits, ParseScyllaNote, n);
    var row :| row in hits && ParseScyllaNote(row) == n;
    MapSeqMembers(rows, ParseScyllaNote, n);
  }

  predicate OriginKeeps(origin: Origin, n: Note) {
    match origin
    case LocalOrigin => !Truthy(n.userHost)
    case RemoteOrigin => Truthy(n.userHost)
    case Combined => true
  }

  /** The `switch (ps.origin)`. */
  function OriginStep(notes: seq<Note>, origin: Origin): seq<Note> {
    match origin
    case LocalOrigin => Filter(notes, (n: Note) => !Truthy(n.userHost))
    case RemoteOrigin => Filter(notes, (n: Note) => Truthy(n.userHost))
    case Combined => notes
  }

  /** The filters one day's posts pass, step by step. */
  function DaySteps(notes: seq<Note>, ps: FeaturedParams, user: Option<string>, rel: NoteRelations,
                    suspendedUserIds: seq<string>, re2: RegexTest): seq<Note> {
    var f0 := OriginStep(notes, ps.origin);
    var f1 := FilterBlockUser(f0, BlockIds(user, rel, suspendedUserIds));
    if user.Some? then
      FilterMutedNote(FilterMutedUser(f1, rel.mutedUserIds, rel.mutedInstances, None), user.value, rel.mutedWords, re2)
    else f1
  }

  /** What one day's filters ask of one post. */
  predicate FeaturedPass(n: Note, ps: FeaturedParams, user: Option<string>, rel: NoteRelations,
                         suspendedUserIds: seq<string>, re2: RegexTest) {
    OriginKeeps(ps.origin, n)
    && !MentionsMutedUser(n, BlockIds(user, rel, suspendedUserIds))
    && (user.Some? ==>
          !MentionsMutedUser(n, rel.mutedUserIds) && !FromMutedInstance(n, rel.mutedInstances)
          && !HardMuted(n, user, rel.mutedWords, re2))
  }

  function FeaturedPassPred(ps: FeaturedParams, user: Option<string>, rel: NoteRelations,
                            suspendedUserIds: seq<string>, re2: RegexTest): Note -> bool {
    (n: Note) => FeaturedPass(n, ps, user, rel, suspendedUserIds, re2)
  }

  function OriginPred(origin: Origin): Note -> bool {
    (n: Note) => OriginKeeps(origin, n)
  }

  function SignedInMutePred(user: Option<string>, rel: NoteRelations, re2: RegexTest): Note -> bool {
    (n: Note) => user.Some? ==>
      !MentionsMutedUser(n, rel.mutedUserIds) && !FromMutedInstance(n, rel.mutedInstances)
      && !HardMuted(n, user, rel.mutedWords, re2)
  }

  lemma OriginStepIsFilter(notes: seq<Note>, origin: Origin)
    ensures OriginStep(notes, origin) == Filter(notes, OriginPred(origin))
  {
    match origin
    case LocalOrigin => FilterExt(notes, (n: Note) => !Truthy(n.userHost), OriginPred(origin));
    case RemoteOrigin => FilterExt(notes, (n: Note) => Truthy(n.userHost), OriginPred(origin));
    case Combined => FilterAll(notes, OriginPred(origin));
  }

  lemma MuteStepIsFilter(notes: seq<Note>, user: Option<string>, rel: NoteRelations, re2: RegexTest)
    ensures (if user.Some? then FilterMutedNote(FilterMutedUser(notes, rel.mutedUserIds, rel.mutedInstances, None),
                                                user.value, rel.mutedWords, re2)
             else notes)
         == Filter(notes, SignedInMutePred(user, rel, re2))
  {
    if user.Some? {
      var p1 := MutedUserPred(rel.mutedUserIds, rel.mutedInstances);
      var p2 := WordMutePred(user.value, rel.mutedWords, re2);
      assert EffectiveMutes(rel.mutedUserIds, None) == rel.mutedUserIds;
      FilterBoth(notes, p1, p2);
      FilterExt(notes, Both(p1, p2), SignedInMutePred(user, rel, re2));
    } else {
      FilterAll(notes, SignedInMutePred(user, rel, re2));
    }
  }

  /** One day's filters keep, in order, the posts `FeaturedPass` accepts. */
  lemma DayStepsIsFilter(notes: seq<Note>, ps: FeaturedParams, user: Option<string>, rel: NoteRelations,
                         suspendedUserIds: seq<string>, re2: RegexTest)
    ensures DaySteps(notes, ps, user, rel, suspendedUserIds, re2) == Filter(notes, FeaturedPassPred(ps, user, rel, suspendedUserIds, re2))
  {
    var p0 := OriginPred(ps.origin);
    var p1 := BlockPred(BlockIds(user, rel, suspendedUserIds));
    var p2 := SignedInMutePred(user, rel, re2);
    OriginStepIsFilter(notes, ps.origin);
    FilterBoth(notes, p0, p1);
    MuteStepIsFilter(Filter(notes, Both(p0, p1)), user, rel, re2);
    FilterBoth(notes, Both(p0, p1), p2);
    FilterExt(notes, Both(Both(p0, p1), p2), FeaturedPassPred(ps, user, rel, suspendedUserIds, re2));
  }

  /**
   * Every viewer loses the posts of, replying to or renoting a suspended
   * user; "local" keeps only posts without a host, "remote" only posts
   * with one; a signed-in viewer also loses what the viewer's mutes,
   * blocks and word mutes screen out.
   */
  lemma FeaturedPassMeaning(n: Note, ps: FeaturedParams, user: Option<string>, rel: NoteRelations,
                            suspendedUserIds: seq<string>, re2: RegexTest)
    ensures MentionsMutedUser(n, suspendedUserIds) ==> !FeaturedPass(n, ps, user, rel, suspendedUserIds, re2)
    ensures ps.origin == LocalOrigin && FeaturedPass(n, ps, user, rel, suspendedUserIds, re2) ==> !Truthy(n.userHost)
    ensures ps.origin == RemoteOrigin && FeaturedPass(n, ps, user, rel, suspendedUserIds, re2) ==> Truthy(n.userHost)
    ensures user.Some? && FeaturedPass(n, ps, user, rel, suspendedUserIds, re2) ==>
      !MentionsMutedUser(n, rel.blockerIds) && !MentionsMutedUser(n, rel.blockingIds)
      && !MentionsMutedUser(n, rel.mutedUserIds) && !FromMutedInstance(n, rel.mutedInstances)
      && !HardMuted(n, user, rel.mutedWords, re2)
    ensures user.None? ==>
      (FeaturedPass(n, ps, user, rel, suspendedUserIds, re2) <==> OriginKeeps(ps.origin, n) && !MentionsMutedUser(n, suspendedUserIds))
  {
    if MentionsMutedUser(n, suspendedUserIds) {
      assert MentionsMutedUser(n, BlockIds(user, rel, suspendedUserIds));
    }
    if user.None? {
      assert BlockIds(user, rel, suspendedUserIds) == suspendedUserIds;
    }
  }

  // ---------------------------------------------------------------------
  // The day scan

  /** The loop's variables: `targetDay`, `searchedDays` and `foundNotes`. */
  datatype Scan = Scan(target: int, searched: int, found: seq<Note>)

  /** The posts one iteration adds: the day of `target`, those that pass the day filters, in order. */
  function DayBatch(rows: seq<NoteRow>, target: int, ps: FeaturedParams, user: Option<string>, rel: NoteRelations,
                    suspendedUserIds: seq<string>, re2: RegexTest): seq<Note> {
    Filter(ScoreDay(rows, target), FeaturedPassPred(ps, user, rel, suspendedUserIds, re2))
  }

  /** `DayBatch` for every cursor. */
  function DayBatches(rows: seq<NoteRow>, ps: FeaturedParams, user: Option<string>, rel: NoteRelations,
                      suspendedUserIds: seq<string>, re2: RegexTest): int -> seq<Note> {
    (t: int) => DayBatch(rows, t, ps, user, rel, suspendedUserIds, re2)
  }

  /** `DayBatches` names, at every cursor, that cursor's `DayBatch`. */
  lemma DayBatchesAt(rows: seq<NoteRow>, ps: FeaturedParams, user: Option<string>, rel: NoteRelations,
                     suspendedUserIds: seq<string>, re2: RegexTest)
    ensures forall t {:trigger DayBatch(rows, t, ps, user, rel, suspendedUserIds, re2)} ::
      DayBatches(rows, ps, user, rel, suspendedUserIds, re2)(t) == DayBatch(rows, t, ps, user, rel, suspendedUserIds, re2)
  {
  }

  /** The loop from state `s` on, `batchOf(t)` being what the iteration at cursor `t` adds. */
  function DayScan(batchOf: int -> seq<Note>, days: int, s: Scan): Scan
    decreases days - s.searched
  {
    if |s.found| < MaxFound && s.searched < days then
      DayScan(batchOf, days, Scan(s.target - OneDay, s.searched + 1, s.found + batchOf(s.target)))
    else s
  }

  /** Each day's batch holds scored posts of the target's day that pass the day filters. */
  lemma DayBatchSound(rows: seq<NoteRow>, target: int, ps: FeaturedParams, user: Option<string>, rel: NoteRelations,
                      suspendedUserIds: seq<string>, re2: RegexTest, n: Note)
    requires n in DayBatch(rows, target, ps, user, rel, suspendedUserIds, re2)
    ensures n in MapSeq(rows, ParseScyllaNote) && n.score > 0 && Day(n.createdAt) == Day(target)
    ensures FeaturedPass(n, ps, user, rel, suspendedUserIds, re2)
  {
    ScoreDaySound(rows, target, n);
  }

  /** Each batch holds `good` posts of its cursor's day. */
  ghost predicate BatchesGood(batchOf: int -> seq<Note>, good: Note -> bool) {
    forall t, n :: n in batchOf(t) ==> Day(n.createdAt) == Day(t) && good(n)
  }

  /**
   * From a state whose cursor is `s.searched` days back from `today`: the
   * scan searches at most `days` days, stops short of them only with at
   * least 30 posts, never searches once 30 are found, moves the cursor back
   * exactly one day per day searched and keeps what it had found; when each
   * batch holds `good` posts of its cursor's day, every post it adds is a
   * `good` post of one of the days it searched.
   */
  lemma {:induction false} DayScanSound(batchOf: int -> seq<Note>, days: int, good: Note -> bool, today: int, s: Scan)
    requires Day(s.target) == today - s.searched
    requires BatchesGood(batchOf, good)
    ensures var r := DayScan(batchOf, days, s);
      s.searched <= r.searched && r.searched <= Max(days, s.searched)
      && (r.searched < days ==> |r.found| >= MaxFound)
      && (|s.found| >= MaxFound ==> r == s)
      && Day(r.target) == today - r.searched
      && r.target == s.target - (r.searched - s.searched) * OneDay
      && s.found <= r.found
      && forall i :: |s.found| <= i < |r.found| ==>
        good(r.found[i]) && today - r.searched < Day(r.found[i].createdAt) <= today - s.searched
    decreases days - s.searched
  {
    if |s.found| < MaxFound && s.searched < days {
      var batch := batchOf(s.target);
      var s' := Scan(s.target - OneDay, s.searched + 1, s.found + batch);
      assert Day(s'.target) == Day(s.target) - 1;
      DayScanSound(batchOf, days, good, today, s');
      var r := DayScan(batchOf, days, s');
      forall i | |s.found| <= i < |s'.found|
        ensures good(r.found[i]) && today - r.searched < Day(r.found[i].createdAt) <= today - s.searched
      {
        assert r.found[i] == s'.found[i] == batch[i - |s.found|];
        assert batch[i - |s.found|] in batchOf(s.target);
      }
    }
  }

  /** A scored post of the table that passes the day filters. */
  function Featurable(rows: seq<NoteRow>, ps: FeaturedParams, user: Option<string>, rel: NoteRelations,
                      suspendedUserIds: seq<string>, re2: RegexTest): Note -> bool {
    (n: Note) => n in MapSeq(rows, ParseScyllaNote) && n.score > 0 && FeaturedPass(n, ps, user, rel, suspendedUserIds, re2)
  }

  lemma DayBatchesSound(rows: seq<NoteRow>, ps: FeaturedParams, user: Option<string>, rel: NoteRelations,
                        suspendedUserIds: seq<string>, re2: RegexTest)
    ensures BatchesGood(DayBatches(rows, ps, user, rel, suspendedUserIds, re2), Featurable(rows, ps, user, rel, suspendedUserIds, re2))
  {
    forall t, n | n in DayBatches(rows, ps, user, rel, suspendedUserIds, re2)(t)
      ensures Day(n.createdAt) == Day(t) && Featurable(rows, ps, user, rel, suspendedUserIds, re2)(n)
    {
      DayBatchSound(rows, t, ps, user, rel, suspendedUserIds, re2, n);
    }
  }

  /** One turn of the loop: searching the cursor's day, or stopping. */
  lemma ScanStep(batchOf: int -> seq<Note>, days: int, s: Scan)
    ensures |s.found| < MaxFound && s.searched < days ==>
      DayScan(batchOf, days, s) == DayScan(batchOf, days, Scan(s.target - OneDay, s.searched + 1, s.found + batchOf(s.target)))
    ensures !(|s.found| < MaxFound && s.searched < days) ==> DayScan(batchOf, days, s) == s
  {
  }

  /** Searching the cursor's day with its batch `notes` leaves the scan's outcome as it was. */
  lemma ScanAdvance(batchOf: int -> seq<Note>, days: int, target: int, searched: int, found: seq<Note>, notes: seq<Note>)
    requires |found| < MaxFound && searched < days && notes == batchOf(target)
    ensures DayScan(batchOf, days, Scan(target - OneDay, searched + 1, found + notes)) == DayScan(batchOf, days, Scan(target, searched, found))
  {
    ScanStep(batchOf, days, Scan(target, searched, found));
  }

  /** The scan searched at most `days` days, fewer only once 30 posts were found, and its cursor moved back a day per day. */
  predicate ScanBounded(sc: Scan, days: int, now: int) {
    0 <= sc.searched <= Max(days, 0)
    && (sc.searched < days ==> |sc.found| >= MaxFound)
    && sc.target == now - sc.searched * OneDay
  }

  /** A `good` post of the last `days` UTC days before `now`, today included. */
  predicate InWindow(n: Note, good: Note -> bool, now: int, days: int) {
    good(n) && Day(now) - Max(days, 0) < Day(n.createdAt) <= Day(now)
  }

  /** Every collected post is a `good` post of the last `days` UTC days. */
  predicate AllInWindow(found: seq<Note>, good: Note -> bool, now: int, days: int) {
    forall i :: 0 <= i < |found| ==> InWindow(found[i], good, now, days)
  }

  /** The answer is newest first, holds at most `limit` posts, each a `good` post of the last `days` UTC days (today included). */
  predicate AnswerOk(out: seq<Note>, good: Note -> bool, now: int, days: int, limit: int) {
    SortedDesc(out, CreatedAt)
    && (limit >= 0 ==> |out| <= limit)
    && forall n :: n in out ==> InWindow(n, good, now, days)
  }

  /** From nothing found at `now`, the scan is bounded and collects only `good` posts of the days it searched. */
  lemma ScanFromNow(batchOf: int -> seq<Note>, days: int, good: Note -> bool, now: int)
    requires BatchesGood(batchOf, good)
    ensures ScanBounded(DayScan(batchOf, days, Scan(now, 0, [])), days, now)
    ensures AllInWindow(DayScan(batchOf, days, Scan(now, 0, [])).found, good, now, days)
  {
    DayScanSound(batchOf, days, good, Day(now), Scan(now, 0, []));
  }

  /**
   * From nothing found at `now`: the scan searches at most `days` days, fewer
   * only once 30 posts are found, and the sorted, sliced answer is newest
   * first, holds at most `limit` posts, each a `good` post of the last
   * `days` UTC days (today included).
   */
  lemma ScanAnswerSound(batchOf: int -> seq<Note>, days: int, good: Note -> bool, now: int, offset: int, limit: int)
    requires BatchesGood(batchOf, good)
    ensures ScanBounded(DayScan(batchOf, days, Scan(now, 0, [])), days, now)
    ensures AnswerOk(Sliced(DayScan(batchOf, days, Scan(now, 0, [])).found, offset, limit), good, now, days, limit)
  {
    ScanFromNow(batchOf, days, good, now);
    SliceAnswer(DayScan(batchOf, days, Scan(now, 0, [])).found, good, now, days, offset, limit);
  }

  /** `found.sort(newest first).slice(offset, offset + limit)`. */
  function Sliced(found: seq<Note>, offset: int, limit: int): seq<Note> {
    JsSlice(SortDesc(found, CreatedAt), offset, offset + limit)
  }

  /** Sorting newest first and slicing keeps order, respects the limit and keeps only collected posts. */
  lemma SliceAnswer(found: seq<Note>, good: Note -> bool, now: int, days: int, offset: int, limit: int)
    requires AllInWindow(found, good, now, days)
    ensures AnswerOk(Sliced(found, offset, limit), good, now, days, limit)
  {
    var sorted := SortDesc(found, CreatedAt);
    var out := Sliced(found, offset, limit);
    JsSliceSorted(sorted, offset, offset + limit, CreatedAt);
    if limit >= 0 {
      JsSliceWindow(sorted, offset, limit);
    }
    forall n | n in out
      ensures InWindow(n, good, now, days)
    {
      assert n in multiset(sorted);
      assert n in found;
      var i :| 0 <= i < |found| && found[i] == n;
    }
  }

  /** The scan the endpoint runs: from now, nothing searched, nothing found. */
  function FeaturedScan(rows: seq<NoteRow>, ps: FeaturedParams, user: Option<string>, rel: NoteRelations,
                        suspendedUserIds: seq<string>, re2: RegexTest, now: int): Scan {
    DayScan(DayBatches(rows, ps, user, rel, suspendedUserIds, re2), ps.days, Scan(now, 0, []))
  }

  /** The notes the store branch packs: the collection sorted newest first and sliced to `[offset, offset + limit)`. */
  function FeaturedNotes(rows: seq<NoteRow>, ps: FeaturedParams, user: Option<string>, rel: NoteRelations,
                         suspendedUserIds: seq<string>, re2: RegexTest, now: int): seq<Note> {
    Sliced(FeaturedScan(rows, ps, user, rel, suspendedUserIds, re2, now).found, ps.offset, ps.limit)
  }

  /**
   * The endpoint's scan searches at most `days` days, fewer only once 30
   * posts are found; the answer is newest first and holds at most `limit`
   * posts, each a scored post of the last `days` UTC days (today included)
   * that passes the day filters.
   */
  lemma FeaturedSound(rows: seq<NoteRow>, ps: FeaturedParams, user: Option<string>, rel: NoteRelations,
                      suspendedUserIds: seq<string>, re2: RegexTest, now: int)
    ensures ScanBounded(FeaturedScan(rows, ps, user, rel, suspendedUserIds, re2, now), ps.days, now)
    ensures AnswerOk(FeaturedNotes(rows, ps, user, rel, suspendedUserIds, re2, now),
                     Featurable(rows, ps, user, rel, suspendedUserIds, re2), now, ps.days, ps.limit)
  {
    FeaturedAnswerSound(rows, ps, user, rel, suspendedUserIds, re2, now);
  }

  /** Over the day batches: the scan is bounded and the sliced answer meets `AnswerOk`. */
  lemma FeaturedAnswerSound(rows: seq<NoteRow>, ps: FeaturedParams, user: Option<string>, rel: NoteRelations,
                            suspendedUserIds: seq<string>, re2: RegexTest, now: int)
    ensures ScanBounded(DayScan(DayBatches(rows, ps, user, rel, suspendedUserIds, re2), ps.days, Scan(now, 0, [])), ps.days, now)
    ensures AnswerOk(FeaturedNotes(rows, ps, user, rel, suspendedUserIds, re2, now),
                     Featurable(rows, ps, user, rel, suspendedUserIds, re2), now, ps.days, ps.limit)
  {
    DayBatchesSound(rows, ps, user, rel, suspendedUserIds, re2);
    ScanAnswerSound(DayBatches(rows, ps, user, rel, suspendedUserIds, re2), ps.days,
                    Featurable(rows, ps, user, rel, suspendedUserIds, re2), now, ps.offset, ps.limit);
  }

  // ---------------------------------------------------------------------
  // The endpoint

  /** One iteration's query and filters: the scored posts of the cursor's day, filtered. */
  method DayRound(rows: seq<NoteRow>, targetDay: int, ps: FeaturedParams, user: Option<string>, rel: NoteRelations,
                  suspendedUserIds: seq<string>, re2: RegexTest) returns (notes: seq<Note>)
    ensures notes == DayBatch(rows, targetDay, ps, user, rel, suspendedUserIds, re2)
  {
    notes := ScoreDay(rows, targetDay);
    match ps.origin {
      case LocalOrigin => notes := Filter(notes, (n: Note) => !Truthy(n.userHost));
      case RemoteOrigin => notes := Filter(notes, (n: Note) => Truthy(n.userHost));
      case Combined =>
    }
    notes := FilterBlockUser(notes, BlockIds(user, rel, suspendedUserIds));
    if user.Some? {
      notes := FilterMutedUser(notes, rel.mutedUserIds, rel.mutedInstances, None);
      notes := FilterMutedNote(notes, user.value, rel.mutedWords, re2);
    }
    assert notes == DaySteps(ScoreDay(rows, targetDay), ps, user, rel, suspendedUserIds, re2);
    DayStepsIsFilter(ScoreDay(rows, targetDay), ps, user, rel, suspendedUserIds, re2);
  }

  /**
   * The endpoint's loop: day by day from `now` until 30 posts are found or
   * `days` days are searched.
   */
  method CollectFeatured(ps: FeaturedParams, user: Option<string>, rel: NoteRelations, suspendedUserIds: seq<string>,
                         re2: RegexTest, rows: seq<NoteRow>, now: int) returns (foundNotes: seq<Note>)
    ensures foundNotes == FeaturedScan(rows, ps, user, rel, suspendedUserIds, re2, now).found
  {
    DayBatchesAt(rows, ps, user, rel, suspendedUserIds, re2);
    foundNotes := CollectDays(ps, user, rel, suspendedUserIds, re2, rows, now, DayBatches(rows, ps, user, rel, suspendedUserIds, re2));
  }

  /**
   * The loop itself, against any `batchOf` that names what each day's round
   * returns: it ends with the posts `DayScan` collects from `now`.
   */
  method CollectDays(ps: FeaturedParams, user: Option<string>, rel: NoteRelations, suspendedUserIds: seq<string>,
                         re2: RegexTest, rows: seq<NoteRow>, now: int, ghost batchOf: int -> seq<Note>)
    returns (foundNotes: seq<Note>)
    requires forall t {:trigger DayBatch(rows, t, ps, user, rel, suspendedUserIds, re2)} ::
      batchOf(t) == DayBatch(rows, t, ps, user, rel, suspendedUserIds, re2)
    ensures foundNotes == DayScan(batchOf, ps.days, Scan(now, 0, [])).found
  {
    foundNotes := [];
    var searchedDays := 0;
    var targetDay := now;
    while |foundNotes| < MaxFound && searchedDays < ps.days
      invariant DayScan(batchOf, ps.days, Scan(targetDay, searchedDays, foundNotes)) == DayScan(batchOf, ps.days, Scan(now, 0, []))
      decreases ps.days - searchedDays
    {
      var notes := DayRound(rows, targetDay, ps, user, rel, suspendedUserIds, re2);
      ScanAdvance(batchOf, ps.days, targetDay, searchedDays, foundNotes, notes);
      searchedDays := searchedDays + 1;
      foundNotes := foundNotes + notes;
      targetDay := targetDay - OneDay;
    }
    ScanStep(batchOf, ps.days, Scan(targetDay, searchedDays, foundNotes));
  }

  /**
   * The endpoint's store branch: `now` is `new Date()`, `rel` what the
   * caches return for a signed-in viewer (blockers and blockees are empty
   * otherwise), `rows` the `score_feed` table, `pack` is `Notes.packMany`.
   */
  method FeaturedStore<P>(ps: FeaturedParams, user: Option<string>, rel: NoteRelations, suspendedUserIds: seq<string>,
                          re2: RegexTest, rows: seq<NoteRow>, now: int, pack: seq<Note> -> seq<P>) returns (r: seq<P>)
    ensures r == pack(FeaturedNotes(rows, ps, user, rel, suspendedUserIds, re2, now))
  {
    var foundNotes := CollectFeatured(ps, user, rel, suspendedUserIds, re2, rows, now);
    var notes := Sliced(foundNotes, ps.offset, ps.limit);
    r := pack(notes);
  }

  // ---------------------------------------------------------------------
  // The loop as written: the filters are not awaited

  /**
   * One iteration as written (featured.ts:95-123). The origin filter runs
   * on the array; `filterBlockUser` is `async`, called without `await` and
   * with the id list in its `user` slot, so `notes` then holds a Promise,
   * and so do the signed-in mute filters after it (`filterMutedUser` also
   * lacks its `user` argument). `foundNotes.push(...notes)` spreads that
   * Promise, which is not iterable: a `TypeError`.
   */
  function DayRoundAsWritten(rows: seq<NoteRow>, target: int, ps: FeaturedParams, user: Option<string>,
                             rel: NoteRelations): Result<seq<Note>> {
    var blocked := Unawaited(Notes(OriginStep(ScoreDay(rows, target), ps.origin)), true);
    var muted := if user.Some? then Unawaited(Unawaited(blocked, true), |rel.mutedWords| > 0) else blocked;
    match muted
    case Notes(notes) => Ok(notes)
    case _ => Err(TypeError)
  }

  /** The loop from state `s` on, `round(t)` being the iteration at cursor `t`; its error ends the request. */
  function DayScanAsWritten(round: int -> Result<seq<Note>>, days: int, s: Scan): Result<Scan>
    decreases days - s.searched
  {
    if |s.found| < MaxFound && s.searched < days then
      match round(s.target)
      case Err(msg) => Err(msg)
      case Ok(notes) => DayScanAsWritten(round, days, Scan(s.target - OneDay, s.searched + 1, s.found + notes))
    else Ok(s)
  }

  /** The store branch as written: the loop from now, then the sort and the slice. */
  function FeaturedAsWritten(rows: seq<NoteRow>, ps: FeaturedParams, user: Option<string>, rel: NoteRelations,
                             now: int): Result<seq<Note>> {
    var round := (t: int) => DayRoundAsWritten(rows, t, ps, user, rel);
    match DayScanAsWritten(round, ps.days, Scan(now, 0, []))
    case Err(msg) => Err(msg)
    case Ok(s) => Ok(Sliced(s.found, ps.offset, ps.limit))
  }

  /**
   * As written, every request whose `days` is at least 1 (the parameter's
   * minimum) fails with a `TypeError` in the first iteration, whatever the
   * table holds and whoever asks.
   */
  lemma FeaturedAsWrittenFails(rows: seq<NoteRow>, ps: FeaturedParams, user: Option<string>, rel: NoteRelations, now: int)
    ensures ps.days >= 1 ==> FeaturedAsWritten(rows, ps, user, rel, now) == Err(TypeError)
  {
  }
}

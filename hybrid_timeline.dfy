/**
 * The store branch of the hybrid timeline
 * (server/api/endpoints/notes/hybrid-timeline.ts): each round reads the
 * viewer's home feed and the local feed side by side, keeps on the first
 * the notes by the viewer and the users they follow and on the second
 * everybody else's, passes both through the shared filters and the
 * request's flags, merges them newest first and cuts the merge to one and
 * a half times the limit.
 */
module HybridTimeline {
  import opened Common
  import opened ScyllaRows
  import opened WordMute
  import opened NoteFilters
  import opened Pagination
  import opened PaginationProofs
  import opened Refetch

  /** The request: paging plus the endpoint's flags. */
  datatype HybridParams = HybridParams(
    page: PageParams,
    includeMyRenotes: bool,
    includeRenotedMyNotes: bool,
    includeLocalRenotes: bool,
    withFiles: bool,
    withReplies: bool)

  const StlDisabled := "STL_DISABLED"

  /** `[user.id, ...followingUserIds]` */
  function HomeUserIds(me: string, rel: NoteRelations): seq<string> {
    [me] + rel.followingUserIds
  }

  function HomePred(me: string, rel: NoteRelations): Note -> bool {
    (n: Note) => n.userId in HomeUserIds(me, rel)
  }

  function LocalPred(me: string, rel: NoteRelations): Note -> bool {
    (n: Note) => n.userId !in HomeUserIds(me, rel)
  }

  /** `homeFilter` */
  function HomeFilter(notes: seq<Note>, me: string, rel: NoteRelations): seq<Note> {
    Filter(notes, HomePred(me, rel))
  }

  /** `localFilter` */
  function LocalFilter(notes: seq<Note>, me: string, rel: NoteRelations): seq<Note> {
    Filter(notes, LocalPred(me, rel))
  }

  function MyRenotePred(me: string): Note -> bool {
    (n: Note) => n.userId != me || OptFilter(n)
  }

  function RenotedMinePred(me: string): Note -> bool {
    (n: Note) => n.renoteUserId != Some(me) || OptFilter(n)
  }

  function RemoteRenotePred(): Note -> bool {
    (n: Note) => Truthy(n.renoteUserHost) || OptFilter(n)
  }

  /** The flag steps at the end of `commonFilter`. */
  function FlagSteps(notes: seq<Note>, ps: HybridParams, me: string): seq<Note> {
    var f1 := if !ps.includeMyRenotes then Filter(notes, MyRenotePred(me)) else notes;
    var f2 := if !ps.includeRenotedMyNotes then Filter(f1, RenotedMinePred(me)) else f1;
    var f3 := if !ps.includeLocalRenotes then Filter(f2, RemoteRenotePred()) else f2;
    var f4 := if ps.withFiles then Filter(f3, HasFilesPred()) else f3;
    Filter(f4, NotHiddenPred())
  }

  /** `commonFilter` */
  function CommonFilter(notes: seq<Note>, ps: HybridParams, me: string, rel: NoteRelations, re2: RegexTest): seq<Note> {
    FlagSteps(Shun(Audience(notes, Some(me), rel, ps.withReplies), me, rel, re2), ps, me)
  }

  /** What the flag steps ask of one note. */
  predicate FlagsPass(n: Note, ps: HybridParams, me: string) {
    (!ps.includeMyRenotes ==> n.userId != me || OptFilter(n))
    && (!ps.includeRenotedMyNotes ==> n.renoteUserId != Some(me) || OptFilter(n))
    && (!ps.includeLocalRenotes ==> Truthy(n.renoteUserHost) || OptFilter(n))
    && (ps.withFiles ==> |n.files| > 0)
    && n.visibility != Hidden
  }

  function FlagsPred(ps: HybridParams, me: string): Note -> bool {
    (n: Note) => FlagsPass(n, ps, me)
  }

  /** What `commonFilter` asks of one note. */
  predicate CommonKeep(n: Note, ps: HybridParams, me: string, rel: NoteRelations, re2: RegexTest) {
    InAudience(n, Some(me), rel, ps.withReplies) && Unshunned(n, me, rel, re2) && FlagsPass(n, ps, me)
  }

  function CommonPred(ps: HybridParams, me: string, rel: NoteRelations, re2: RegexTest): Note -> bool {
    (n: Note) => CommonKeep(n, ps, me, rel, re2)
  }

  /** What the home feed's closure `commonFilter(homeFilter(notes))` asks of one note. */
  predicate HomeKeep(n: Note, ps: HybridParams, me: string, rel: NoteRelations, re2: RegexTest) {
    n.userId in HomeUserIds(me, rel) && CommonKeep(n, ps, me, rel, re2)
  }

  /** What the local feed's closure `commonFilter(localFilter(notes))` asks of one note. */
  predicate LocalKeep(n: Note, ps: HybridParams, me: string, rel: NoteRelations, re2: RegexTest) {
    n.userId !in HomeUserIds(me, rel) && CommonKeep(n, ps, me, rel, re2)
  }

  function HomeKeepPred(ps: HybridParams, me: string, rel: NoteRelations, re2: RegexTest): Note -> bool {
    (n: Note) => HomeKeep(n, ps, me, rel, re2)
  }

  function LocalKeepPred(ps: HybridParams, me: string, rel: NoteRelations, re2: RegexTest): Note -> bool {
    (n: Note) => LocalKeep(n, ps, me, rel, re2)
  }

  // ---------------------------------------------------------------------
  // The closures are filters by one condition

  lemma FlagsPointwise(n: Note, ps: HybridParams, me: string)
    ensures Both(Both(Both(Both(When(!ps.includeMyRenotes, MyRenotePred(me)), When(!ps.includeRenotedMyNotes, RenotedMinePred(me))),
                           When(!ps.includeLocalRenotes, RemoteRenotePred())), When(ps.withFiles, HasFilesPred())), NotHiddenPred())(n)
         == FlagsPred(ps, me)(n)
  {
  }

  /** The flag steps keep, in order, the notes `FlagsPass` accepts. */
  lemma FlagStepsIsFilter(notes: seq<Note>, ps: HybridParams, me: string)
    ensures FlagSteps(notes, ps, me) == Filter(notes, FlagsPred(ps, me))
  {
    var w1 := When(!ps.includeMyRenotes, MyRenotePred(me));
    var w2 := When(!ps.includeRenotedMyNotes, RenotedMinePred(me));
    var w3 := When(!ps.includeLocalRenotes, RemoteRenotePred());
    var w4 := When(ps.withFiles, HasFilesPred());
    FilterWhen(!ps.includeMyRenotes, notes, MyRenotePred(me));
    var f1 := Filter(notes, w1);
    FilterWhen(!ps.includeRenotedMyNotes, f1, RenotedMinePred(me));
    FilterBoth(notes, w1, w2);
    var f2 := Filter(notes, Both(w1, w2));
    FilterWhen(!ps.includeLocalRenotes, f2, RemoteRenotePred());
    FilterBoth(notes, Both(w1, w2), w3);
    var f3 := Filter(notes, Both(Both(w1, w2), w3));
    FilterWhen(ps.withFiles, f3, HasFilesPred());
    FilterBoth(notes, Both(Both(w1, w2), w3), w4);
    FilterBoth(notes, Both(Both(Both(w1, w2), w3), w4), NotHiddenPred());
    var all := Both(Both(Both(Both(w1, w2), w3), w4), NotHiddenPred());
    forall i | 0 <= i < |notes|
      ensures all(notes[i]) == FlagsPred(ps, me)(notes[i])
    {
      FlagsPointwise(notes[i], ps, me);
    }
    FilterExt(notes, all, FlagsPred(ps, me));
  }

  /** `commonFilter` keeps, in order, the notes `CommonKeep` accepts. */
  lemma CommonFilterIsFilter(notes: seq<Note>, ps: HybridParams, me: string, rel: NoteRelations, re2: RegexTest)
    ensures CommonFilter(notes, ps, me, rel, re2) == Filter(notes, CommonPred(ps, me, rel, re2))
  {
    var a := AudiencePred(Some(me), rel, ps.withReplies);
    var u := UnshunnedPred(me, rel, re2);
    AudienceIsFilter(notes, Some(me), rel, ps.withReplies);
    ShunIsFilter(Filter(notes, a), me, rel, re2);
    FlagStepsIsFilter(Filter(Filter(notes, a), u), ps, me);
    FilterBoth(notes, a, u);
    FilterBoth(notes, Both(a, u), FlagsPred(ps, me));
    var all := Both(Both(a, u), FlagsPred(ps, me));
    forall i | 0 <= i < |notes|
      ensures all(notes[i]) == CommonPred(ps, me, rel, re2)(notes[i])
    {
      CommonPointwise(notes[i], ps, me, rel, re2);
    }
    FilterExt(notes, all, CommonPred(ps, me, rel, re2));
  }

  lemma CommonPointwise(n: Note, ps: HybridParams, me: string, rel: NoteRelations, re2: RegexTest)
    ensures Both(Both(AudiencePred(Some(me), rel, ps.withReplies), UnshunnedPred(me, rel, re2)), FlagsPred(ps, me))(n)
         == CommonPred(ps, me, rel, re2)(n)
  {
  }

  /** The home closure is the filter by `HomeKeep`. */
  lemma HomeClosureIsFilter(notes: seq<Note>, ps: HybridParams, me: string, rel: NoteRelations, re2: RegexTest)
    ensures CommonFilter(HomeFilter(notes, me, rel), ps, me, rel, re2) == Filter(notes, HomeKeepPred(ps, me, rel, re2))
  {
    CommonFilterIsFilter(HomeFilter(notes, me, rel), ps, me, rel, re2);
    FilterBoth(notes, HomePred(me, rel), CommonPred(ps, me, rel, re2));
    var all := Both(HomePred(me, rel), CommonPred(ps, me, rel, re2));
    forall i | 0 <= i < |notes|
      ensures all(notes[i]) == HomeKeepPred(ps, me, rel, re2)(notes[i])
    {
      KeepPointwise(notes[i], ps, me, rel, re2);
    }
    FilterExt(notes, all, HomeKeepPred(ps, me, rel, re2));
  }

  /** The local closure is the filter by `LocalKeep`. */
  lemma LocalClosureIsFilter(notes: seq<Note>, ps: HybridParams, me: string, rel: NoteRelations, re2: RegexTest)
    ensures CommonFilter(LocalFilter(notes, me, rel), ps, me, rel, re2) == Filter(notes, LocalKeepPred(ps, me, rel, re2))
  {
    CommonFilterIsFilter(LocalFilter(notes, me, rel), ps, me, rel, re2);
    FilterBoth(notes, LocalPred(me, rel), CommonPred(ps, me, rel, re2));
    var all := Both(LocalPred(me, rel), CommonPred(ps, me, rel, re2));
    forall i | 0 <= i < |notes|
      ensures all(notes[i]) == LocalKeepPred(ps, me, rel, re2)(notes[i])
    {
      KeepPointwise(notes[i], ps, me, rel, re2);
    }
    FilterExt(notes, all, LocalKeepPred(ps, me, rel, re2));
  }

  lemma KeepPointwise(n: Note, ps: HybridParams, me: string, rel: NoteRelations, re2: RegexTest)
    ensures Both(HomePred(me, rel), CommonPred(ps, me, rel, re2))(n) == HomeKeepPred(ps, me, rel, re2)(n)
    ensures Both(LocalPred(me, rel), CommonPred(ps, me, rel, re2))(n) == LocalKeepPred(ps, me, rel, re2)(n)
    ensures CommonKeep(n, ps, me, rel, re2) <==> HomeKeep(n, ps, me, rel, re2) || LocalKeep(n, ps, me, rel, re2)
    ensures !(HomeKeep(n, ps, me, rel, re2) && LocalKeep(n, ps, me, rel, re2))
  {
  }

  // ---------------------------------------------------------------------
  // Properties of the closures

  /** `homeFilter` and `localFilter` split any batch: each note goes to exactly one of them. */
  lemma HomeLocalPartition(notes: seq<Note>, me: string, rel: NoteRelations)
    ensures |HomeFilter(notes, me, rel)| + |LocalFilter(notes, me, rel)| == |notes|
    ensures forall n :: n in notes ==> (n in HomeFilter(notes, me, rel) <==> n !in LocalFilter(notes, me, rel))
    ensures forall n :: n in HomeFilter(notes, me, rel) ==> n.userId == me || n.userId in rel.followingUserIds
  {
    FilterSplit(notes, HomePred(me, rel), LocalPred(me, rel));
  }

  /** `optFilter` fails exactly on the bare renotes. */
  lemma OptFilterBare(n: Note)
    ensures !OptFilter(n) <==> BareRenote(n)
    ensures BareRenote(n) ==> IsPureRenote(n)
  {
  }

  /**
   * Each `include*Renotes=false` flag drops only bare renotes: by the
   * viewer, of the viewer's notes, of a local note; `withFiles` keeps only
   * notes with files, and a hidden note never passes.
   */
  lemma FlagsMeaning(n: Note, ps: HybridParams, me: string)
    ensures FlagsPass(n, ps, me) ==> n.visibility != Hidden && (ps.withFiles ==> |n.files| > 0)
    ensures !BareRenote(n) ==> (FlagsPass(n, ps, me) <==> n.visibility != Hidden && (ps.withFiles ==> |n.files| > 0))
    ensures BareRenote(n) ==>
      (FlagsPass(n, ps, me) <==>
        n.visibility != Hidden && (ps.withFiles ==> |n.files| > 0)
        && (!ps.includeMyRenotes ==> n.userId != me)
        && (!ps.includeRenotedMyNotes ==> n.renoteUserId != Some(me))
        && (!ps.includeLocalRenotes ==> Truthy(n.renoteUserHost)))
  {
  }

  /** The two closures keep disjoint parts of a batch, and together what `commonFilter` keeps of it. */
  lemma ClosuresSplitCommon(notes: seq<Note>, ps: HybridParams, me: string, rel: NoteRelations, re2: RegexTest)
    ensures forall n :: n in CommonFilter(notes, ps, me, rel, re2) <==>
      n in CommonFilter(HomeFilter(notes, me, rel), ps, me, rel, re2) || n in CommonFilter(LocalFilter(notes, me, rel), ps, me, rel, re2)
    ensures forall n :: !(n in CommonFilter(HomeFilter(notes, me, rel), ps, me, rel, re2) && n in CommonFilter(LocalFilter(notes, me, rel), ps, me, rel, re2))
  {
    CommonFilterIsFilter(notes, ps, me, rel, re2);
    HomeClosureIsFilter(notes, ps, me, rel, re2);
    LocalClosureIsFilter(notes, ps, me, rel, re2);
    forall n: Note
      ensures n in Filter(notes, CommonPred(ps, me, rel, re2)) <==>
        n in Filter(notes, HomeKeepPred(ps, me, rel, re2)) || n in Filter(notes, LocalKeepPred(ps, me, rel, re2))
      ensures !(n in Filter(notes, HomeKeepPred(ps, me, rel, re2)) && n in Filter(notes, LocalKeepPred(ps, me, rel, re2)))
    {
      FiltersSplitAt(notes, ps, me, rel, re2, n);
    }
  }

  /** One note is kept by `commonFilter` exactly when one of the two closures keeps it. */
  lemma FiltersSplitAt(notes: seq<Note>, ps: HybridParams, me: string, rel: NoteRelations, re2: RegexTest, n: Note)
    ensures n in Filter(notes, CommonPred(ps, me, rel, re2)) <==>
      n in Filter(notes, HomeKeepPred(ps, me, rel, re2)) || n in Filter(notes, LocalKeepPred(ps, me, rel, re2))
    ensures !(n in Filter(notes, HomeKeepPred(ps, me, rel, re2)) && n in Filter(notes, LocalKeepPred(ps, me, rel, re2)))
  {
    KeepPointwise(n, ps, me, rel, re2);
  }

  // ---------------------------------------------------------------------
  // One round

  /** The `home_timeline` table under the home closure. */
  function HomeFeedOf(rows: seq<NoteRow>, ps: HybridParams, me: string, rel: NoteRelations, re2: RegexTest): Feed<NoteRow, Note> {
    Feed(rows, RowCreatedAt, FeedOwner, ParseScyllaNote, HomeKeepPred(ps, me, rel, re2))
  }

  /** The local view of `note` under the local closure. */
  function LocalFeedOf(rows: seq<NoteRow>, ps: HybridParams, me: string, rel: NoteRelations, re2: RegexTest): Feed<NoteRow, Note> {
    Feed(rows, RowCreatedAt, Unkeyed, ParseScyllaNote, LocalKeepPred(ps, me, rel, re2))
  }

  /** The merged batch of one round, cursor `pp`. */
  function HybridBatch(pp: PageParams, ps: HybridParams, me: string, rel: NoteRelations, re2: RegexTest,
                       homeRows: seq<NoteRow>, localRows: seq<NoteRow>, e: Engine): Result<seq<Note>> {
    var home := Paginate(HomeFeedOf(homeRows, ps, me, rel, re2), HomeFeed, pp, Some(me), e.now, e.getTimestamp, true, e.queryLimit, e.maxPartitions);
    var local := Paginate(LocalFeedOf(localRows, ps, me, rel, re2), LocalFeed, pp, None, e.now, e.getTimestamp, true, e.queryLimit, e.maxPartitions);
    if home.Err? then Err(home.msg)
    else if local.Err? then Err(local.msg)
    else Ok(Cut(SortDesc(MapSeq(home.value.rows, ParseScyllaNote) + MapSeq(local.value.rows, ParseScyllaNote), CreatedAt), pp.limit))
  }

  /** The round as a function of `untilDate`. */
  function HybridBatches(ps: HybridParams, me: string, rel: NoteRelations, re2: RegexTest,
                         homeRows: seq<NoteRow>, localRows: seq<NoteRow>, e: Engine): Option<int> -> Result<seq<Note>> {
    (d: Option<int>) => HybridBatch(ps.page.(untilDate := d), ps, me, rel, re2, homeRows, localRows, e)
  }

  /** The `Promise.all` of the two queries, then the merge, sort and cut. */
  method HybridRound(pp: PageParams, ps: HybridParams, me: string, rel: NoteRelations, re2: RegexTest,
                     homeRows: seq<NoteRow>, localRows: seq<NoteRow>, e: Engine) returns (b: Result<seq<Note>>)
    ensures b == HybridBatch(pp, ps, me, rel, re2, homeRows, localRows, e)
  {
    var home, _ := ExecPaginationQuery(HomeFeedOf(homeRows, ps, me, rel, re2), HomeFeed, pp, Some(me),
                                       e.now, e.getTimestamp, true, e.queryLimit, e.maxPartitions);
    var local, _ := ExecPaginationQuery(LocalFeedOf(localRows, ps, me, rel, re2), LocalFeed, pp, None,
                                        e.now, e.getTimestamp, true, e.queryLimit, e.maxPartitions);
    if home.Err? {
      return Err(home.msg);
    }
    if local.Err? {
      return Err(local.msg);
    }
    var foundNotes := SortDesc(home.value + local.value, CreatedAt);
    b := Ok(Cut(foundNotes, pp.limit));
  }

  /** Every note the store holds, as decoded. */
  function Universe(homeRows: seq<NoteRow>, localRows: seq<NoteRow>): seq<Note> {
    MapSeq(homeRows, ParseScyllaNote) + MapSeq(localRows, ParseScyllaNote)
  }

  /** A note of one round comes from one of the two tables, is stamped non-zero and is older than `untilDate`. */
  lemma HybridBatchWithin(pp: PageParams, ps: HybridParams, me: string, rel: NoteRelations, re2: RegexTest,
                          homeRows: seq<NoteRow>, localRows: seq<NoteRow>, e: Engine, n: Note)
    requires NonZeroStamps(homeRows) && NonZeroStamps(localRows)
    requires HybridBatch(pp, ps, me, rel, re2, homeRows, localRows, e).Ok?
    requires n in HybridBatch(pp, ps, me, rel, re2, homeRows, localRows, e).value
    ensures n in Universe(homeRows, localRows) && n.createdAt != 0
    ensures NumTruthy(pp.untilDate) ==> n.createdAt < pp.untilDate.value
  {
    var hf := HomeFeedOf(homeRows, ps, me, rel, re2);
    var lf := LocalFeedOf(localRows, ps, me, rel, re2);
    var home := Paginate(hf, HomeFeed, pp, Some(me), e.now, e.getTimestamp, true, e.queryLimit, e.maxPartitions);
    var local := Paginate(lf, LocalFeed, pp, None, e.now, e.getTimestamp, true, e.queryLimit, e.maxPartitions);
    MergeCut(MapSeq(home.value.rows, ParseScyllaNote), MapSeq(local.value.rows, ParseScyllaNote), pp.limit);
    if n in MapSeq(home.value.rows, ParseScyllaNote) {
      PageNote(hf, HomeFeed, pp, Some(me), e, n);
    } else {
      PageNote(lf, LocalFeed, pp, None, e, n);
    }
  }

  /** The hybrid rounds meet what the refetch loop needs to end. */
  lemma HybridBounded(ps: HybridParams, me: string, rel: NoteRelations, re2: RegexTest,
                      homeRows: seq<NoteRow>, localRows: seq<NoteRow>, e: Engine)
    requires NonZeroStamps(homeRows) && NonZeroStamps(localRows)
    ensures Bounded(HybridBatches(ps, me, rel, re2, homeRows, localRows, e), Universe(homeRows, localRows))
  {
    HybridBatchesAt(ps, me, rel, re2, homeRows, localRows, e);
    BoundedRounds(HybridBatches(ps, me, rel, re2, homeRows, localRows, e), ps, me, rel, re2, homeRows, localRows, e);
  }

  /** `HybridBatches` names, at every cursor, that cursor's `HybridBatch`. */
  lemma HybridBatchesAt(ps: HybridParams, me: string, rel: NoteRelations, re2: RegexTest,
                        homeRows: seq<NoteRow>, localRows: seq<NoteRow>, e: Engine)
    ensures forall d {:trigger HybridBatch(ps.page.(untilDate := d), ps, me, rel, re2, homeRows, localRows, e)} ::
      HybridBatches(ps, me, rel, re2, homeRows, localRows, e)(d) == HybridBatch(ps.page.(untilDate := d), ps, me, rel, re2, homeRows, localRows, e)
  {
  }

  /** Any `batchOf` that is, at every cursor, the hybrid round there meets `Bounded`. */
  lemma BoundedRounds(batchOf: Option<int> -> Result<seq<Note>>, ps: HybridParams, me: string, rel: NoteRelations, re2: RegexTest,
                      homeRows: seq<NoteRow>, localRows: seq<NoteRow>, e: Engine)
    requires NonZeroStamps(homeRows) && NonZeroStamps(localRows)
    requires forall d {:trigger HybridBatch(ps.page.(untilDate := d), ps, me, rel, re2, homeRows, localRows, e)} ::
      batchOf(d) == HybridBatch(ps.page.(untilDate := d), ps, me, rel, re2, homeRows, localRows, e)
    ensures Bounded(batchOf, Universe(homeRows, localRows))
  {
    forall d: Option<int>, n: Note | batchOf(d).Ok? && n in batchOf(d).value
      ensures n in Universe(homeRows, localRows) && n.createdAt != 0 && (d.Some? && d.value != 0 ==> n.createdAt < d.value)
    {
      var pp := ps.page.(untilDate := d);
      assert batchOf(d) == HybridBatch(pp, ps, me, rel, re2, homeRows, localRows, e);
      HybridBatchWithin(pp, ps, me, rel, re2, homeRows, localRows, e, n);
    }
  }

  // ---------------------------------------------------------------------
  // The endpoint

  /** What the store branch answers. */
  function HybridResult<P>(ps: HybridParams, viewer: Viewer, disableLocalTimeline: bool, rel: NoteRelations, re2: RegexTest,
                          homeRows: seq<NoteRow>, localRows: seq<NoteRow>, e: Engine, pack: seq<Note> -> seq<P>): (r: Result<seq<P>>)
    requires NonZeroStamps(homeRows) && NonZeroStamps(localRows)
    ensures TimelineOff(disableLocalTimeline, Some(viewer)) ==> r == Err(StlDisabled)
    ensures r.Ok? ==> |r.value| <= Max(ps.page.limit, 0)
  {
    if TimelineOff(disableLocalTimeline, Some(viewer)) then Err(StlDisabled)
    else
      HybridBounded(ps, viewer.id, rel, re2, homeRows, localRows, e);
      Refetched(HybridBatches(ps, viewer.id, rel, re2, homeRows, localRows, e), pack, ps.page.limit, ps.page.untilDate,
                Universe(homeRows, localRows))
  }

  /**
   * The endpoint's store branch: `rel` is what the caches return for the
   * viewer, `re2` the regex engine of the word mutes, `pack` is
   * `Notes.packMany`.
   */
  method HybridTimelineStore<P>(ps: HybridParams, viewer: Viewer, disableLocalTimeline: bool, rel: NoteRelations,
                                re2: RegexTest, homeRows: seq<NoteRow>, localRows: seq<NoteRow>, e: Engine,
                                pack: seq<Note> -> seq<P>) returns (r: Result<seq<P>>)
    requires NonZeroStamps(homeRows) && NonZeroStamps(localRows)
    ensures r == HybridResult(ps, viewer, disableLocalTimeline, rel, re2, homeRows, localRows, e, pack)
  {
    if TimelineOff(disableLocalTimeline, Some(viewer)) {
      return Err(StlDisabled);
    }
    var me := viewer.id;
    ghost var batchOf := HybridBatches(ps, me, rel, re2, homeRows, localRows, e);
    ghost var universe := Universe(homeRows, localRows);
    HybridBounded(ps, me, rel, re2, homeRows, localRows, e);
    var untilDate := ps.page.untilDate;
    var foundPacked: seq<P> := [];
    while |foundPacked| < ps.page.limit
      invariant Rounds(batchOf, pack, ps.page.limit, untilDate, foundPacked, universe)
             == Rounds(batchOf, pack, ps.page.limit, ps.page.untilDate, [], universe)
      decreases Remaining(universe, untilDate)
    {
      var found := HybridRound(ps.page.(untilDate := untilDate), ps, me, rel, re2, homeRows, localRows, e);
      RoundsStep(batchOf, pack, ps.page.limit, untilDate, foundPacked, universe, found);
      if found.Err? {
        return Err(found.msg);
      }
      var foundNotes := found.value;
      foundPacked := foundPacked + pack(foundNotes);
      if |foundNotes| < ps.page.limit {
        return Ok(Take(foundPacked, ps.page.limit));
      }
      untilDate := Some(foundNotes[|foundNotes| - 1].createdAt);
    }
    return Ok(Take(foundPacked, ps.page.limit));
  }

  // ---------------------------------------------------------------------
  // Properties of the rounds

  /**
   * One round's batch is newest first, at most one and a half times the
   * limit long, older than the cursor, and made of home-timeline notes of
   * the viewer's own timeline by the viewer or a followed user, and local
   * notes by anybody else, every one passing `commonFilter`.
   */
  lemma HybridBatchSound(pp: PageParams, ps: HybridParams, me: string, rel: NoteRelations, re2: RegexTest,
                         homeRows: seq<NoteRow>, localRows: seq<NoteRow>, e: Engine)
    requires me != ""
    ensures var b := HybridBatch(pp, ps, me, rel, re2, homeRows, localRows, e);
      b.Ok?
      && SortedDesc(b.value, CreatedAt)
      && (pp.limit >= 0 ==> |b.value| <= HalfAgain(pp.limit))
      && forall n :: n in b.value ==> HybridNoteOk(n, pp, ps, me, rel, re2, homeRows, localRows, e)
  {
    var home := Paginate(HomeFeedOf(homeRows, ps, me, rel, re2), HomeFeed, pp, Some(me), e.now, e.getTimestamp, true, e.queryLimit, e.maxPartitions);
    var local := Paginate(LocalFeedOf(localRows, ps, me, rel, re2), LocalFeed, pp, None, e.now, e.getTimestamp, true, e.queryLimit, e.maxPartitions);
    var hs := MapSeq(home.value.rows, ParseScyllaNote);
    var ls := MapSeq(local.value.rows, ParseScyllaNote);
    MergeCut(hs, ls, pp.limit);
    var b := Cut(SortDesc(hs + ls, CreatedAt), pp.limit);
    forall n | n in b
      ensures HybridNoteOk(n, pp, ps, me, rel, re2, homeRows, localRows, e)
    {
      if n in hs {
        HomeNoteSound(pp, ps, me, rel, re2, homeRows, e, n);
      } else {
        LocalNoteSound(pp, ps, me, rel, re2, localRows, e, n);
      }
    }
  }

  /** What the merged round promises of one of its notes: older than the cursor, kept by the common filter, and from the query it came from. */
  predicate HybridNoteOk(n: Note, pp: PageParams, ps: HybridParams, me: string, rel: NoteRelations, re2: RegexTest,
                         homeRows: seq<NoteRow>, localRows: seq<NoteRow>, e: Engine) {
    n.createdAt < ResolveUntil(pp, e.now, e.getTimestamp)
    && CommonKeep(n, ps, me, rel, re2)
    && (n.userId in HomeUserIds(me, rel) ==> exists row :: row in homeRows && FeedOwner(row) == me && ParseScyllaNote(row) == n)
    && (n.userId !in HomeUserIds(me, rel) ==> n in MapSeq(localRows, ParseScyllaNote))
  }

  /** Merging two answers, sorting newest first and cutting keeps order, the half-again bound and only merged notes. */
  lemma MergeCut(hs: seq<Note>, ls: seq<Note>, limit: int)
    ensures var b := Cut(SortDesc(hs + ls, CreatedAt), limit);
      SortedDesc(b, CreatedAt)
      && (limit >= 0 ==> |b| <= HalfAgain(limit))
      && forall n :: n in b ==> n in hs || n in ls
  {
    var sorted := SortDesc(hs + ls, CreatedAt);
    var b := Cut(sorted, limit);
    assert b == sorted[..|b|];
    SortedPrefix(sorted, CreatedAt, |b|);
    forall n | n in b
      ensures n in hs || n in ls
    {
      assert n in sorted;
      assert n in multiset(sorted);
      assert n in hs + ls;
    }
  }

  /** A note a page keyed by `me` returns comes from a row of that key whose stamp is older than the cursor. */
  lemma KeyedPageRow<R(!new), E>(f: Feed<R, E>, pp: PageParams, me: string, e: Engine, n: E)
    requires var r := Paginate(f, HomeFeed, pp, Some(me), e.now, e.getTimestamp, true, e.queryLimit, e.maxPartitions);
      r.Ok? && n in MapSeq(r.value.rows, f.decode)
    ensures f.keep(n)
    ensures exists row :: row in f.table && f.key(row) == me && f.decode(row) == n && f.stamp(row) < ResolveUntil(pp, e.now, e.getTimestamp)
  {
    PageNote(f, HomeFeed, pp, Some(me), e, n);
    assert Keyed(StatementFor(HomeFeed)) && KeyValue(HomeFeed, pp, Some(me)) == me;
  }

  /** A note the home query returns is on the viewer's timeline, kept by the home closure, and older than the cursor. */
  lemma HomeNoteSound(pp: PageParams, ps: HybridParams, me: string, rel: NoteRelations, re2: RegexTest,
                      homeRows: seq<NoteRow>, e: Engine, n: Note)
    requires me != ""
    requires var r := Paginate(HomeFeedOf(homeRows, ps, me, rel, re2), HomeFeed, pp, Some(me), e.now, e.getTimestamp, true, e.queryLimit, e.maxPartitions);
      r.Ok? && n in MapSeq(r.value.rows, ParseScyllaNote)
    ensures n.createdAt < ResolveUntil(pp, e.now, e.getTimestamp) && HomeKeep(n, ps, me, rel, re2)
    ensures exists row :: row in homeRows && FeedOwner(row) == me && ParseScyllaNote(row) == n
  {
    var f := HomeFeedOf(homeRows, ps, me, rel, re2);
    KeyedPageRow(f, pp, me, e, n);
    var row :| row in f.table && f.key(row) == me && f.decode(row) == n && f.stamp(row) < ResolveUntil(pp, e.now, e.getTimestamp);
    assert row in homeRows && FeedOwner(row) == me && ParseScyllaNote(row) == n;
  }

  /** A note the local query returns is kept by the local closure and older than the cursor. */
  lemma LocalNoteSound(pp: PageParams, ps: HybridParams, me: string, rel: NoteRelations, re2: RegexTest,
                       localRows: seq<NoteRow>, e: Engine, n: Note)
    requires var r := Paginate(LocalFeedOf(localRows, ps, me, rel, re2), LocalFeed, pp, None, e.now, e.getTimestamp, true, e.queryLimit, e.maxPartitions);
      r.Ok? && n in MapSeq(r.value.rows, ParseScyllaNote)
    ensures n.createdAt < ResolveUntil(pp, e.now, e.getTimestamp) && LocalKeep(n, ps, me, rel, re2)
    ensures n in MapSeq(localRows, ParseScyllaNote)
  {
    PageNote(LocalFeedOf(localRows, ps, me, rel, re2), LocalFeed, pp, None, e, n);
  }

  /** Across the rounds of one request, every later note is strictly older: no note is fetched twice. */
  lemma HybridRoundsOlder<P>(ps: HybridParams, me: string, rel: NoteRelations, re2: RegexTest,
                             homeRows: seq<NoteRow>, localRows: seq<NoteRow>, e: Engine, pack: seq<Note> -> seq<P>)
    requires me != "" && NonZeroStamps(homeRows) && NonZeroStamps(localRows)
    requires Bounded(HybridBatches(ps, me, rel, re2, homeRows, localRows, e), Universe(homeRows, localRows))
    ensures OlderRounds(Batches(HybridBatches(ps, me, rel, re2, homeRows, localRows, e), pack, ps.page.limit, ps.page.untilDate, [],
                          Universe(homeRows, localRows)))
  {
    var batchOf := HybridBatches(ps, me, rel, re2, homeRows, localRows, e);
    forall d | batchOf(d).Ok?
      ensures SortedDesc(batchOf(d).value, CreatedAt)
    {
      HybridBatchSound(ps.page.(untilDate := d), ps, me, rel, re2, homeRows, localRows, e);
    }
    BatchesOlder(batchOf, pack, ps.page.limit, ps.page.untilDate, [], Universe(homeRows, localRows));
  }
}

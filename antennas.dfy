/**
 * The store branch of an antenna's notes (server/api/endpoints/antennas/notes.ts):
 * the caller's antenna is looked up, the accounts it follows are resolved
 * to user ids one by one, its instance and keyword lists are normalised,
 * and one read of the list feed (for a "users" antenna) or of the antenna
 * feed passes a closure of the viewer's screens and the antenna's own
 * rules; the rows are sorted newest first and cut to `limit`.
 */
module AntennaNotes {
  import opened Common
  import opened ScyllaRows
  import opened WordMute
  import opened NoteFilters
  import opened Pagination
  import opened PaginationProofs
  import opened Refetch

  /** `antenna.src`; only "users" and "instances" add a test, the other sources are told apart by name. */
  datatype AntennaSource = UsersSource | InstancesSource | OtherSource(name: string)

  /** The stored antenna, as far as the endpoint reads it. */
  datatype Antenna = Antenna(
    id: string,
    userId: string,
    src: AntennaSource,
    users: seq<string>,
    instances: seq<string>,
    keywords: seq<seq<string>>,
    caseSensitive: bool,
    withReplies: bool,
    withFile: bool)

  /** The request: the antenna and the paging parameters. */
  datatype AntennaParams = AntennaParams(
    antennaId: string,
    limit: int,
    sinceId: Option<string>,
    untilId: Option<string>,
    sinceDate: Option<int>,
    untilDate: Option<int>)

  const NoSuchAntenna := "NO_SUCH_ANTENNA"

  /** `Antennas.findOneBy({ id, userId })`: the caller's antenna with that id, if there is one. */
  function FindAntenna(antennas: seq<Antenna>, id: string, owner: string): (r: Option<Antenna>)
    ensures r.Some? ==> r.value in antennas && r.value.id == id && r.value.userId == owner
    ensures r.None? <==> forall a :: a in antennas ==> !(a.id == id && a.userId == owner)
  {
    if |antennas| == 0 then None
    else if antennas[0].id == id && antennas[0].userId == owner then Some(antennas[0])
    else FindAntenna(antennas[1..], id, owner)
  }

  // ---------------------------------------------------------------------
  // Resolving the accounts

  /**
   * The ids the loop over `antenna.users` pushes, in order: `resolve` is the
   * acct-to-id lookup (the cache, else a query for an unsuspended user of
   * that name and host), and only a truthy id is pushed.
   */
  function ResolvedIds(accts: seq<string>, resolve: string -> Option<string>): (r: seq<string>)
    ensures |r| <= |accts|
    ensures forall x :: x in r ==> x != ""
    ensures forall i :: 0 <= i < |accts| && Truthy(resolve(accts[i])) ==> resolve(accts[i]).value in r
    ensures forall x :: x in r ==> exists a :: a in accts && resolve(a) == Some(x)
  {
    if |accts| == 0 then []
    else
      var init := accts[..|accts| - 1];
      var last := accts[|accts| - 1];
      var rest := ResolvedIds(init, resolve);
      assert forall a :: a in init ==> a in accts;
      assert forall i :: 0 <= i < |init| ==> init[i] == accts[i];
      if Truthy(resolve(last)) then rest + [resolve(last).value] else rest
  }

  /** One more account pushes its id when the id is truthy. */
  lemma ResolvedStep(accts: seq<string>, i: int, resolve: string -> Option<string>)
    requires 0 <= i < |accts|
    ensures ResolvedIds(accts[..i + 1], resolve)
         == if Truthy(resolve(accts[i])) then ResolvedIds(accts[..i], resolve) + [resolve(accts[i]).value]
            else ResolvedIds(accts[..i], resolve)
  {
    assert accts[..i + 1][..i] == accts[..i];
  }

  /** The loop over `antenna.users`. */
  method ResolveUsers(accts: seq<string>, resolve: string -> Option<string>) returns (userIds: seq<string>)
    ensures userIds == ResolvedIds(accts, resolve)
  {
    userIds := [];
    for i := 0 to |accts|
      invariant userIds == ResolvedIds(accts[..i], resolve)
    {
      ResolvedStep(accts, i, resolve);
      var userId := resolve(accts[i]);
      if Truthy(userId) {
        userIds := userIds + [userId.value];
      }
    }
    assert accts[..|accts|] == accts;
  }

  // ---------------------------------------------------------------------
  // Normalisation

  function NonBlankPred(): string -> bool {
    (x: string) => x != ""
  }

  /** `antenna.instances` without "" entries, lowercased. */
  function NormInstances(instances: seq<string>): (r: seq<string>)
    ensures |r| <= |instances|
    ensures "" !in r
    ensures forall h :: h in r ==> Lower(h) == h
    ensures forall x :: x in instances && x != "" ==> Lower(x) in r
    ensures forall h :: h in r ==> exists x :: x in instances && x != "" && Lower(x) == h
  {
    var kept := Filter(instances, NonBlankPred());
    var r := MapSeq(kept, Lower);
    forall h | h in r
      ensures h != "" && Lower(h) == h && exists x :: x in instances && x != "" && Lower(x) == h
    {
      MapSeqMembers(kept, Lower, h);
      var x :| x in kept && Lower(x) == h;
      LowerIdempotent(x);
    }
    forall x | x in instances && x != ""
      ensures Lower(x) in r
    {
      MapSeqMembers(kept, Lower, Lower(x));
    }
    r
  }

  function NonEmptyGroupPred(): seq<string> -> bool {
    (g: seq<string>) => |g| > 0
  }

  /** `antenna.keywords` with "" dropped from every group, then the empty groups dropped. */
  function NormKeywords(keywords: seq<seq<string>>): (r: seq<seq<string>>)
    ensures |r| <= |keywords|
    ensures forall g :: g in r ==> |g| > 0 && "" !in g
    ensures forall h :: h in keywords && |NonEmptyWords(h)| > 0 ==> NonEmptyWords(h) in r
    ensures forall g :: g in r ==> exists h :: h in keywords && NonEmptyWords(h) == g
  {
    var groups := MapSeq(keywords, NonEmptyWords);
    var r := Filter(groups, NonEmptyGroupPred());
    forall g | g in r
      ensures "" !in g && exists h :: h in keywords && NonEmptyWords(h) == g
    {
      MapSeqMembers(keywords, NonEmptyWords, g);
    }
    forall h | h in keywords && |NonEmptyWords(h)| > 0
      ensures NonEmptyWords(h) in r
    {
      MapSeqMembers(keywords, NonEmptyWords, NonEmptyWords(h));
    }
    r
  }

  // ---------------------------------------------------------------------
  // The antenna's own rules

  /** What the closure reads of the antenna: its flags and the resolved and normalised lists. */
  datatype Scope = Scope(antenna: Antenna, userIds: seq<string>, instances: seq<string>, keywords: seq<seq<string>>)

  function ScopeOf(a: Antenna, userIds: seq<string>): Scope {
    Scope(a, userIds, NormInstances(a.instances), NormKeywords(a.keywords))
  }

  /** `note.userHost?.toLowerCase() ?? ""` */
  function HostKey(n: Note): string {
    if n.userHost.Some? then Lower(n.userHost.value) else ""
  }

  /** The `switch (antenna.src)` test. */
  predicate InSource(n: Note, sc: Scope) {
    match sc.antenna.src
    case UsersSource => n.userId in sc.userIds
    case InstancesSource => HostKey(n) in sc.instances
    case OtherSource(_) => true
  }

  /** One keyword occurs in the text, case-folded unless the antenna is case sensitive. */
  predicate Occurs(text: string, keyword: string, caseSensitive: bool) {
    if caseSensitive then Includes(text, keyword) else Includes(Lower(text), Lower(keyword))
  }

  /** `and.every(...)`: every keyword of the group occurs. */
  predicate GroupHit(text: string, group: seq<string>, caseSensitive: bool) {
    forall kw :: kw in group ==> Occurs(text, kw, caseSensitive)
  }

  /** `keywords.some(...)` on a note with text. */
  predicate KeywordHit(text: string, groups: seq<seq<string>>, caseSensitive: bool) {
    exists g :: g in groups && GroupHit(text, g, caseSensitive)
  }

  /** What the antenna's own three steps ask of one note. */
  predicate AntennaRules(n: Note, sc: Scope) {
    (sc.antenna.withFile ==> |n.files| > 0)
    && InSource(n, sc)
    && (|sc.keywords| > 0 ==> Truthy(n.text) && KeywordHit(n.text.value, sc.keywords, sc.antenna.caseSensitive))
  }

  function SourcePred(sc: Scope): Note -> bool {
    (n: Note) => InSource(n, sc)
  }

  function KeywordPred(sc: Scope): Note -> bool {
    (n: Note) => Truthy(n.text) && KeywordHit(n.text.value, sc.keywords, sc.antenna.caseSensitive)
  }

  function AntennaRulesPred(sc: Scope): Note -> bool {
    (n: Note) => AntennaRules(n, sc)
  }

  /** The `withFile`, source and keyword steps of the closure. */
  function RuleSteps(notes: seq<Note>, sc: Scope): seq<Note> {
    var f1 := if sc.antenna.withFile then Filter(notes, HasFilesPred()) else notes;
    var f2 := if !sc.antenna.src.OtherSource? then Filter(f1, SourcePred(sc)) else f1;
    if |sc.keywords| > 0 then Filter(f2, KeywordPred(sc)) else f2
  }

  lemma RulesPointwise(n: Note, sc: Scope)
    ensures Both(Both(When(sc.antenna.withFile, HasFilesPred()), When(!sc.antenna.src.OtherSource?, SourcePred(sc))),
                 When(|sc.keywords| > 0, KeywordPred(sc)))(n)
         == AntennaRulesPred(sc)(n)
  {
  }

  /** The three steps keep, in order, the notes `AntennaRules` accepts. */
  lemma RuleStepsIsFilter(notes: seq<Note>, sc: Scope)
    ensures RuleSteps(notes, sc) == Filter(notes, AntennaRulesPred(sc))
  {
    var p1 := When(sc.antenna.withFile, HasFilesPred());
    var p2 := When(!sc.antenna.src.OtherSource?, SourcePred(sc));
    var p3 := When(|sc.keywords| > 0, KeywordPred(sc));
    FilterWhen(sc.antenna.withFile, notes, HasFilesPred());
    FilterWhen(!sc.antenna.src.OtherSource?, Filter(notes, p1), SourcePred(sc));
    FilterBoth(notes, p1, p2);
    FilterWhen(|sc.keywords| > 0, Filter(notes, Both(p1, p2)), KeywordPred(sc));
    FilterBoth(notes, Both(p1, p2), p3);
    forall i | 0 <= i < |notes|
      ensures Both(Both(p1, p2), p3)(notes[i]) == AntennaRulesPred(sc)(notes[i])
    {
      RulesPointwise(notes[i], sc);
    }
    FilterExt(notes, Both(Both(p1, p2), p3), AntennaRulesPred(sc));
  }

  /**
   * A "users" antenna keeps exactly the authors among the resolved ids; an
   * "instances" antenna keeps exactly the posts whose author's host
   * matches a listed instance up to case, so a local post (no host) never
   * passes; `withFile` keeps only posts with files.
   */
  lemma SourceRules(n: Note, a: Antenna, userIds: seq<string>)
    ensures var sc := ScopeOf(a, userIds);
      (a.src == UsersSource ==> (InSource(n, sc) <==> n.userId in userIds))
      && (a.src == InstancesSource ==>
           (InSource(n, sc) <==> Truthy(n.userHost) && exists x :: x in a.instances && Lower(x) == Lower(n.userHost.value)))
      && (a.src == InstancesSource && !Truthy(n.userHost) ==> !AntennaRules(n, sc))
      && (a.withFile && AntennaRules(n, sc) ==> |n.files| > 0)
      && (a.src.OtherSource? ==> InSource(n, sc))
  {
    var sc := ScopeOf(a, userIds);
    if a.src == InstancesSource {
      if Truthy(n.userHost) {
        var h := Lower(n.userHost.value);
        if h in sc.instances {
          var x :| x in a.instances && x != "" && Lower(x) == h;
        }
        if exists x :: x in a.instances && Lower(x) == h {
          var x :| x in a.instances && Lower(x) == h;
          assert |x| == |n.userHost.value|;
        }
      } else {
        assert HostKey(n) == "";
      }
    }
  }

  /** A group of the normalised list is hit exactly when every non-empty keyword of its stored group occurs. */
  lemma GroupHitNormalised(text: string, h: seq<string>, cs: bool)
    ensures GroupHit(text, NonEmptyWords(h), cs) <==> forall kw :: kw in h && kw != "" ==> Occurs(text, kw, cs)
  {
  }

  /** A normalised list with a group comes from a stored group that has a non-empty keyword. */
  lemma NormKeywordsNonEmpty(keywords: seq<seq<string>>)
    requires |NormKeywords(keywords)| > 0
    ensures exists h :: h in keywords && |NonEmptyWords(h)| > 0
  {
    var g := NormKeywords(keywords)[0];
    assert g in NormKeywords(keywords);
    var h :| h in keywords && NonEmptyWords(h) == g;
  }

  /** The keyword test over the normalised groups, stated over the stored ones. */
  lemma KeywordHitNormalised(text: string, keywords: seq<seq<string>>, cs: bool)
    ensures KeywordHit(text, NormKeywords(keywords), cs) <==>
      exists h :: h in keywords && |NonEmptyWords(h)| > 0 && forall kw :: kw in h && kw != "" ==> Occurs(text, kw, cs)
  {
    var groups := NormKeywords(keywords);
    if KeywordHit(text, groups, cs) {
      var g :| g in groups && GroupHit(text, g, cs);
      var h :| h in keywords && NonEmptyWords(h) == g;
      GroupHitNormalised(text, h, cs);
    }
    if exists h :: h in keywords && |NonEmptyWords(h)| > 0 && forall kw :: kw in h && kw != "" ==> Occurs(text, kw, cs) {
      var h :| h in keywords && |NonEmptyWords(h)| > 0 && forall kw :: kw in h && kw != "" ==> Occurs(text, kw, cs);
      GroupHitNormalised(text, h, cs);
      assert NonEmptyWords(h) in groups;
    }
  }

  /**
   * With a keyword group that has a non-empty keyword, a post without text
   * never passes, and a post with text passes the keyword step exactly when
   * some stored group that has a non-empty keyword has all of its non-empty
   * keywords in the text; without such a group the step keeps everything.
   */
  lemma KeywordRules(n: Note, a: Antenna, userIds: seq<string>)
    ensures var sc := ScopeOf(a, userIds);
      ((exists h :: h in a.keywords && |NonEmptyWords(h)| > 0) ==> !Truthy(n.text) ==> !AntennaRules(n, sc))
      && ((exists h :: h in a.keywords && |NonEmptyWords(h)| > 0) && Truthy(n.text) ==>
           (KeywordHit(n.text.value, sc.keywords, a.caseSensitive) <==>
            exists h :: h in a.keywords && |NonEmptyWords(h)| > 0
              && forall kw :: kw in h && kw != "" ==> Occurs(n.text.value, kw, a.caseSensitive)))
      && (!(exists h :: h in a.keywords && |NonEmptyWords(h)| > 0) ==>
           (AntennaRules(n, sc) <==> (a.withFile ==> |n.files| > 0) && InSource(n, sc)))
  {
    var sc := ScopeOf(a, userIds);
    if exists h :: h in a.keywords && |NonEmptyWords(h)| > 0 {
      var h :| h in a.keywords && |NonEmptyWords(h)| > 0;
      assert NonEmptyWords(h) in sc.keywords;
      if Truthy(n.text) {
        KeywordHitNormalised(n.text.value, a.keywords, a.caseSensitive);
      }
    } else if |sc.keywords| > 0 {
      NormKeywordsNonEmpty(a.keywords);
    }
  }

  // ---------------------------------------------------------------------
  // The viewer's screens

  /** The six shared filters of the closure, in the order the endpoint runs them. */
  function ScreenSteps(notes: seq<Note>, me: string, withReplies: bool, rel: NoteRelations, suspendedUserIds: seq<string>,
                       re2: RegexTest): seq<Note> {
    var f0 := FilterVisibility(notes, Some(me), rel.followingUserIds);
    var f1 := FilterReply(f0, withReplies, Some(me));
    var f2 := FilterMutedUser(f1, rel.mutedUserIds, rel.mutedInstances, None);
    var f3 := FilterMutedNote(f2, me, rel.mutedWords, re2);
    var f4 := FilterBlockUser(f3, BlockIds(Some(me), rel, suspendedUserIds));
    FilterMutedRenotes(f4, rel.renoteMutedIds)
  }

  /** What the six shared filters ask of one note. */
  predicate AntennaScreens(n: Note, me: string, withReplies: bool, rel: NoteRelations, suspendedUserIds: seq<string>,
                           re2: RegexTest) {
    VisibleTo(n, Some(me), rel.followingUserIds)
    && ReplyVisible(n, withReplies, Some(me))
    && !MentionsMutedUser(n, rel.mutedUserIds) && !FromMutedInstance(n, rel.mutedInstances)
    && !HardMuted(n, Some(me), rel.mutedWords, re2)
    && !MentionsMutedUser(n, BlockIds(Some(me), rel, suspendedUserIds))
    && !(IsPureRenote(n) && n.userId in rel.renoteMutedIds)
  }

  function AntennaScreensPred(me: string, withReplies: bool, rel: NoteRelations, suspendedUserIds: seq<string>,
                              re2: RegexTest): Note -> bool {
    (n: Note) => AntennaScreens(n, me, withReplies, rel, suspendedUserIds, re2)
  }

  lemma ScreensPointwise(n: Note, me: string, withReplies: bool, rel: NoteRelations, suspendedUserIds: seq<string>,
                         re2: RegexTest)
    ensures Both(Both(Both(Both(Both(VisibilityPred(Some(me), rel.followingUserIds), ReplyPred(withReplies, Some(me))),
                                MutedUserPred(rel.mutedUserIds, rel.mutedInstances)),
                           WordMutePred(me, rel.mutedWords, re2)),
                      BlockPred(BlockIds(Some(me), rel, suspendedUserIds))),
                 RenoteMutePred(rel.renoteMutedIds))(n)
         == AntennaScreensPred(me, withReplies, rel, suspendedUserIds, re2)(n)
  {
  }

  /** The six shared filters keep, in order, the notes `AntennaScreens` accepts. */
  lemma ScreenStepsIsFilter(notes: seq<Note>, me: string, withReplies: bool, rel: NoteRelations, suspendedUserIds: seq<string>,
                            re2: RegexTest)
    ensures ScreenSteps(notes, me, withReplies, rel, suspendedUserIds, re2)
         == Filter(notes, AntennaScreensPred(me, withReplies, rel, suspendedUserIds, re2))
  {
    var p0 := VisibilityPred(Some(me), rel.followingUserIds);
    var p1 := ReplyPred(withReplies, Some(me));
    var p2 := MutedUserPred(rel.mutedUserIds, rel.mutedInstances);
    var p3 := WordMutePred(me, rel.mutedWords, re2);
    var p4 := BlockPred(BlockIds(Some(me), rel, suspendedUserIds));
    var p5 := RenoteMutePred(rel.renoteMutedIds);
    var q1 := Both(p0, p1);
    var q2 := Both(q1, p2);
    var q3 := Both(q2, p3);
    var q4 := Both(q3, p4);
    var all := Both(q4, p5);
    assert EffectiveMutes(rel.mutedUserIds, None) == rel.mutedUserIds;
    FilterBoth(notes, p0, p1);
    FilterBoth(notes, q1, p2);
    FilterBoth(notes, q2, p3);
    FilterBoth(notes, q3, p4);
    FilterBoth(notes, q4, p5);
    forall i | 0 <= i < |notes|
      ensures all(notes[i]) == AntennaScreensPred(me, withReplies, rel, suspendedUserIds, re2)(notes[i])
    {
      ScreensPointwise(notes[i], me, withReplies, rel, suspendedUserIds, re2);
    }
    FilterExt(notes, all, AntennaScreensPred(me, withReplies, rel, suspendedUserIds, re2));
  }

  // ---------------------------------------------------------------------
  // The closure

  /** The endpoint's `filter` closure: the shared screens, then the antenna's rules. */
  function AntennaSteps(notes: seq<Note>, me: string, rel: NoteRelations, suspendedUserIds: seq<string>, sc: Scope,
                        re2: RegexTest): seq<Note> {
    RuleSteps(ScreenSteps(notes, me, sc.antenna.withReplies, rel, suspendedUserIds, re2), sc)
  }

  /** What the closure asks of one note. */
  predicate AntennaPass(n: Note, me: string, rel: NoteRelations, suspendedUserIds: seq<string>, sc: Scope, re2: RegexTest) {
    AntennaScreens(n, me, sc.antenna.withReplies, rel, suspendedUserIds, re2) && AntennaRules(n, sc)
  }

  function AntennaPassPred(me: string, rel: NoteRelations, suspendedUserIds: seq<string>, sc: Scope, re2: RegexTest): Note -> bool {
    (n: Note) => AntennaPass(n, me, rel, suspendedUserIds, sc, re2)
  }

  /** The closure keeps, in order, the notes `AntennaPass` accepts. */
  lemma AntennaIsFilter(notes: seq<Note>, me: string, rel: NoteRelations, suspendedUserIds: seq<string>, sc: Scope, re2: RegexTest)
    ensures AntennaSteps(notes, me, rel, suspendedUserIds, sc, re2) == Filter(notes, AntennaPassPred(me, rel, suspendedUserIds, sc, re2))
  {
    var ps := AntennaScreensPred(me, sc.antenna.withReplies, rel, suspendedUserIds, re2);
    var pr := AntennaRulesPred(sc);
    ScreenStepsIsFilter(notes, me, sc.antenna.withReplies, rel, suspendedUserIds, re2);
    RuleStepsIsFilter(Filter(notes, ps), sc);
    FilterBoth(notes, ps, pr);
    FilterExt(notes, Both(ps, pr), AntennaPassPred(me, rel, suspendedUserIds, sc, re2));
  }

  /**
   * A passing note is visible to the owner and screened by every mute,
   * block and renote mute of the owner, and a post by, replying to or
   * renoting a suspended user never passes.
   */
  lemma AntennaScreened(n: Note, me: string, rel: NoteRelations, suspendedUserIds: seq<string>, sc: Scope, re2: RegexTest)
    ensures AntennaPass(n, me, rel, suspendedUserIds, sc, re2) ==>
      VisibleTo(n, Some(me), rel.followingUserIds)
      && !MentionsMutedUser(n, rel.mutedUserIds) && !FromMutedInstance(n, rel.mutedInstances)
      && !HardMuted(n, Some(me), rel.mutedWords, re2)
      && !MentionsMutedUser(n, rel.blockerIds) && !MentionsMutedUser(n, rel.blockingIds)
      && !(IsPureRenote(n) && n.userId in rel.renoteMutedIds)
    ensures MentionsMutedUser(n, suspendedUserIds) ==> !AntennaPass(n, me, rel, suspendedUserIds, sc, re2)
  {
    if MentionsMutedUser(n, suspendedUserIds) {
      assert MentionsMutedUser(n, BlockIds(Some(me), rel, suspendedUserIds));
    }
  }

  // ---------------------------------------------------------------------
  // The endpoint

  /** `antenna.src === "users" ? "list" : "antenna"` */
  function AntennaKind(src: AntennaSource): FeedKind {
    if src == UsersSource then ListFeed else AntennaFeed
  }

  /** `{ ...ps, userIds }` as `execPaginationQuery` reads it. */
  function PageOf(ps: AntennaParams, userIds: seq<string>): PageParams {
    PageParams(ps.limit, ps.untilId, ps.untilDate, ps.sinceId, ps.sinceDate, None, None, Some(userIds))
  }

  /** The list feed reads rows by author; the antenna feed binds no key. */
  function AntennaFeedOf(rows: seq<NoteRow>, me: string, rel: NoteRelations, suspendedUserIds: seq<string>, sc: Scope,
                         re2: RegexTest): Feed<NoteRow, Note> {
    Feed(rows, RowCreatedAt, if sc.antenna.src == UsersSource then RowAuthor else Unkeyed, ParseScyllaNote,
         AntennaPassPred(me, rel, suspendedUserIds, sc, re2))
  }

  /** One read of the feed for the antenna `a` and the resolved `userIds`, sorted newest first and cut to `limit`. */
  function AntennaPage(ps: AntennaParams, me: string, a: Antenna, userIds: seq<string>, rel: NoteRelations,
                       suspendedUserIds: seq<string>, re2: RegexTest, rows: seq<NoteRow>, e: Engine): Result<seq<Note>> {
    var r := Paginate(AntennaFeedOf(rows, me, rel, suspendedUserIds, ScopeOf(a, userIds), re2), AntennaKind(a.src),
                      PageOf(ps, userIds), Some(me), e.now, e.getTimestamp, true, e.queryLimit, e.maxPartitions);
    if r.Err? then Err(r.msg)
    else Ok(JsSlice(SortDesc(MapSeq(r.value.rows, ParseScyllaNote), CreatedAt), 0, ps.limit))
  }

  /**
   * The notes the store branch packs: `antennas` are the stored antennas,
   * `resolve` the acct-to-id lookup, `rel` what the caches return for the
   * caller, `suspendedUserIds` what the suspended-users cache returns.
   */
  function AntennaNotesOf(ps: AntennaParams, me: string, antennas: seq<Antenna>, resolve: string -> Option<string>,
                          rel: NoteRelations, suspendedUserIds: seq<string>, re2: RegexTest, rows: seq<NoteRow>,
                          e: Engine): Result<seq<Note>> {
    var a := FindAntenna(antennas, ps.antennaId, me);
    if a.None? then Err(NoSuchAntenna)
    else AntennaPage(ps, me, a.value, ResolvedIds(a.value.users, resolve), rel, suspendedUserIds, re2, rows, e)
  }

  /**
   * A page sorted newest first and cut by `slice(0, limit)` holds at most
   * `limit` notes, is newest first, and holds only decoded table rows
   * older than the cursor that the closure keeps.
   */
  lemma SortedSliceKept(f: Feed<NoteRow, Note>, kind: FeedKind, pp: PageParams, userId: Option<string>, e: Engine, limit: int)
    requires f.stamp == RowCreatedAt && f.decode == ParseScyllaNote
    ensures var r := Paginate(f, kind, pp, userId, e.now, e.getTimestamp, true, e.queryLimit, e.maxPartitions);
      r.Ok? ==>
        var out := JsSlice(SortDesc(MapSeq(r.value.rows, ParseScyllaNote), CreatedAt), 0, limit);
        (limit >= 0 ==> |out| <= limit)
        && SortedDesc(out, CreatedAt)
        && forall n :: n in out ==>
          f.keep(n) && n in MapSeq(f.table, ParseScyllaNote) && n.createdAt < ResolveUntil(pp, e.now, e.getTimestamp)
  {
    var r := Paginate(f, kind, pp, userId, e.now, e.getTimestamp, true, e.queryLimit, e.maxPartitions);
    if r.Ok? {
      var page := MapSeq(r.value.rows, ParseScyllaNote);
      var sorted := SortDesc(page, CreatedAt);
      var out := JsSlice(sorted, 0, limit);
      if limit >= 0 {
        JsSliceWindow(sorted, 0, limit);
      }
      JsSliceSorted(sorted, 0, limit, CreatedAt);
      SlicedNotesKept(f, kind, pp, userId, e, |page|);
      assert JsSlice(page, 0, |page|) == page;
      forall n | n in out
        ensures n in page
      {
        assert n in multiset(sorted);
      }
    }
  }

  /** Only a "users" antenna without resolved ids is refused by the read, whatever the feed's table and closure. */
  lemma AntennaReadFails(f: Feed<NoteRow, Note>, src: AntennaSource, ps: AntennaParams, userIds: seq<string>, me: string, e: Engine)
    ensures var r := Paginate(f, AntennaKind(src), PageOf(ps, userIds), Some(me), e.now, e.getTimestamp, true, e.queryLimit, e.maxPartitions);
      (r.Err? <==> src == UsersSource && |userIds| == 0)
      && (r.Err? ==> r.msg == "Feed list needs userIds")
  {
    var kind := AntennaKind(src);
    var pp := PageOf(ps, userIds);
    assert !NeedsUserId(kind) && kind != RenotesFeed && kind != ChannelFeed;
    assert MissingParam(kind, pp, Some(me)).Some? <==> src == UsersSource && |userIds| == 0;
  }

  /** What an answered page guarantees. */
  ghost predicate PageAnswer(out: seq<Note>, ps: AntennaParams, me: string, a: Antenna, userIds: seq<string>, rel: NoteRelations,
                             suspendedUserIds: seq<string>, re2: RegexTest, rows: seq<NoteRow>, e: Engine) {
    (ps.limit >= 0 ==> |out| <= ps.limit)
    && SortedDesc(out, CreatedAt)
    && forall n :: n in out ==>
      n in MapSeq(rows, ParseScyllaNote)
      && n.createdAt < ResolveUntil(PageOf(ps, userIds), e.now, e.getTimestamp)
      && AntennaPass(n, me, rel, suspendedUserIds, ScopeOf(a, userIds), re2)
  }

  /**
   * The read fails only for a "users" antenna with no resolved id, with
   * the list feed's missing-ids error; otherwise the page holds at most
   * `limit` notes, newest first, each a decoded row of the table older
   * than the cursor that the closure accepts.
   */
  lemma AntennaPageSound(ps: AntennaParams, me: string, a: Antenna, userIds: seq<string>, rel: NoteRelations,
                         suspendedUserIds: seq<string>, re2: RegexTest, rows: seq<NoteRow>, e: Engine)
    ensures var r := AntennaPage(ps, me, a, userIds, rel, suspendedUserIds, re2, rows, e);
      (r.Err? <==> a.src == UsersSource && |userIds| == 0)
      && (r.Err? ==> r.msg == "Feed list needs userIds")
      && (r.Ok? ==> PageAnswer(r.value, ps, me, a, userIds, rel, suspendedUserIds, re2, rows, e))
  {
    var f := AntennaFeedOf(rows, me, rel, suspendedUserIds, ScopeOf(a, userIds), re2);
    SortedSliceKept(f, AntennaKind(a.src), PageOf(ps, userIds), Some(me), e, ps.limit);
    AntennaReadFails(f, a.src, ps, userIds, me, e);
  }

  /**
   * An antenna the caller does not own, or that does not exist, gives
   * `NO_SUCH_ANTENNA`; a "users" antenna none of whose accounts resolves
   * gives the list feed's missing-ids error; nothing else fails. The
   * answer holds at most `limit` notes, newest first, each a decoded row
   * of the table older than the cursor that the closure accepts.
   */
  lemma AntennaSound(ps: AntennaParams, me: string, antennas: seq<Antenna>, resolve: string -> Option<string>,
                     rel: NoteRelations, suspendedUserIds: seq<string>, re2: RegexTest, rows: seq<NoteRow>, e: Engine)
    ensures var r := AntennaNotesOf(ps, me, antennas, resolve, rel, suspendedUserIds, re2, rows, e);
      var a := FindAntenna(antennas, ps.antennaId, me);
      (r == Err(NoSuchAntenna) <==> a.None?)
      && (a.Some? && a.value.src == UsersSource && |ResolvedIds(a.value.users, resolve)| == 0 ==>
           r == Err("Feed list needs userIds"))
      && (r.Err? ==> a.None? || (a.value.src == UsersSource && |ResolvedIds(a.value.users, resolve)| == 0))
      && (r.Ok? ==> PageAnswer(r.value, ps, me, a.value, ResolvedIds(a.value.users, resolve), rel, suspendedUserIds, re2, rows, e))
  {
    var a := FindAntenna(antennas, ps.antennaId, me);
    if a.Some? {
      var userIds := ResolvedIds(a.value.users, resolve);
      AntennaPageSound(ps, me, a.value, userIds, rel, suspendedUserIds, re2, rows, e);
      assert "Feed list needs userIds" != NoSuchAntenna by {
        assert "Feed list needs userIds"[0] != NoSuchAntenna[0];
      }
    }
  }

  /** What the store branch answers; `pack` is `Notes.packMany`. */
  function AntennaResult<P>(ps: AntennaParams, me: string, antennas: seq<Antenna>, resolve: string -> Option<string>,
                            rel: NoteRelations, suspendedUserIds: seq<string>, re2: RegexTest, rows: seq<NoteRow>,
                            e: Engine, pack: seq<Note> -> seq<P>): Result<seq<P>> {
    var r := AntennaNotesOf(ps, me, antennas, resolve, rel, suspendedUserIds, re2, rows, e);
    if r.Err? then Err(r.msg) else Ok(pack(r.value))
  }

  /** The endpoint's store branch for the signed-in caller `me`. */
  method AntennaNotesStore<P>(ps: AntennaParams, me: string, antennas: seq<Antenna>, resolve: string -> Option<string>,
                              rel: NoteRelations, suspendedUserIds: seq<string>, re2: RegexTest, rows: seq<NoteRow>,
                              e: Engine, pack: seq<Note> -> seq<P>) returns (r: Result<seq<P>>)
    ensures r == AntennaResult(ps, me, antennas, resolve, rel, suspendedUserIds, re2, rows, e, pack)
  {
    var antenna := FindAntenna(antennas, ps.antennaId, me);
    if antenna.None? {
      return Err(NoSuchAntenna);
    }
    var userIds := ResolveUsers(antenna.value.users, resolve);
    var sc := ScopeOf(antenna.value, userIds);
    var f := AntennaFeedOf(rows, me, rel, suspendedUserIds, sc, re2);
    var found, _ := ExecPaginationQuery(f, AntennaKind(antenna.value.src), PageOf(ps, userIds), Some(me), e.now,
                                        e.getTimestamp, true, e.queryLimit, e.maxPartitions);
    if found.Err? {
      return Err(found.msg);
    }
    var foundNotes := JsSlice(SortDesc(found.value, CreatedAt), 0, ps.limit);
    return Ok(pack(foundNotes));
  }
  // ---------------------------------------------------------------------
  // The closure with its filters awaited: it reads the pool the loop pops

  /**
   * The pool as the closure sees it during an iteration of the list feed.
   * `{ ...ps, userIds }` copies the reference to `userIds`, so the
   * `ps.userIds.pop()` of `execPaginationQuery` shortens the closure's list
   * before the closure runs on that iteration's page.
   */
  function Popped(pool: seq<string>): seq<string> {
    if |pool| == 0 then [] else pool[..|pool| - 1]
  }

  /**
   * The loop of `execPaginationQuery` when the caller's filter reads the
   * pool: `feeds(pool)` is the feed whose closure sees `pool` as it is
   * during the iteration, and every iteration is a `Step` of that feed.
   */
  function PoolScan<R(!new), E>(feeds: seq<string> -> Feed<R, E>, table: seq<R>, stamp: R -> int, p: Plan, s: ScanState<R>): ScanState<R>
    requires PlanOk(p)
    requires forall pool :: feeds(pool).table == table && feeds(pool).stamp == stamp
    decreases Max(0, p.maxPartitions) - s.scanned, |s.pool|, CountBelow(table, stamp, s.until)
  {
    if !Running(p, s) then s
    else
      var f := feeds(s.pool);
      match Step(f, p, s)
      case Stop(t) => t
      case Again(t) =>
        StepProgress(f, p, s);
        PoolScan(feeds, table, stamp, p, t)
  }

  /** The feed of each list-feed iteration of a "users" antenna, by the pool before its pop. */
  function AliasedFeeds(rows: seq<NoteRow>, me: string, rel: NoteRelations, suspendedUserIds: seq<string>, a: Antenna,
                        re2: RegexTest): seq<string> -> Feed<NoteRow, Note> {
    (pool: seq<string>) => AntennaFeedOf(rows, me, rel, suspendedUserIds, ScopeOf(a, Popped(pool)), re2)
  }

  /**
   * The loop of `execPaginationQuery` for a "users" antenna as the endpoint
   * runs it: every iteration's closure tests authors against the pool left
   * after that iteration's pop.
   */
  function AliasedScan(rows: seq<NoteRow>, me: string, rel: NoteRelations, suspendedUserIds: seq<string>, a: Antenna,
                       re2: RegexTest, p: Plan, s: ScanState<NoteRow>): ScanState<NoteRow>
    requires PlanOk(p)
  {
    PoolScan(AliasedFeeds(rows, me, rel, suspendedUserIds, a, re2), rows, RowCreatedAt, p, s)
  }

  /**
   * The read of the store branch once the closure's filters are awaited
   * (`AntennaPageAsWritten` is the read with them unawaited, as the
   * endpoint has them), everything else as written. A "users" antenna runs
   * `AliasedScan`, with each user queried from the cursor the previous one
   * left (the list walk as written); the other sources, whose closure does
   * not read `userIds`, read as `AntennaPage` does.
   */
  function AntennaPageAwaited(ps: AntennaParams, me: string, a: Antenna, userIds: seq<string>, rel: NoteRelations,
                                suspendedUserIds: seq<string>, re2: RegexTest, rows: seq<NoteRow>, e: Engine): Result<seq<Note>> {
    if a.src != UsersSource then AntennaPage(ps, me, a, userIds, rel, suspendedUserIds, re2, rows, e)
    else
      var pp := PageOf(ps, userIds);
      var missing := MissingParam(ListFeed, pp, Some(me));
      if missing.Some? then Err(missing.value)
      else
        var q := PreparePaginationQuery(ListFeed, pp, e.now, e.getTimestamp);
        var p := MakePlan(ListFeed, pp, Some(me), q, e.queryLimit, e.maxPartitions, false);
        var end := AliasedScan(rows, me, rel, suspendedUserIds, a, re2, p, ScanState(q.until, 0, userIds, []));
        Ok(JsSlice(SortDesc(MapSeq(end.rows, ParseScyllaNote), CreatedAt), 0, ps.limit))
  }

  /** The store branch's notes once the closure's filters are awaited. */
  function AntennaNotesAwaited(ps: AntennaParams, me: string, antennas: seq<Antenna>, resolve: string -> Option<string>,
                                 rel: NoteRelations, suspendedUserIds: seq<string>, re2: RegexTest, rows: seq<NoteRow>,
                                 e: Engine): Result<seq<Note>> {
    var a := FindAntenna(antennas, ps.antennaId, me);
    if a.None? then Err(NoSuchAntenna)
    else AntennaPageAwaited(ps, me, a.value, ResolvedIds(a.value.users, resolve), rel, suspendedUserIds, re2, rows, e)
  }

  /** A note whose author is not in a "users" antenna's list fails the closure. */
  lemma UnlistedAuthorFails(n: Note, me: string, rel: NoteRelations, suspendedUserIds: seq<string>, sc: Scope, re2: RegexTest)
    requires sc.antenna.src == UsersSource && n.userId !in sc.userIds
    ensures !AntennaPass(n, me, rel, suspendedUserIds, sc, re2)
  {
  }

  /** A page under a key none of whose rows the filter keeps adds nothing. */
  lemma PageKeepsNone<R(!new), E>(f: Feed<R, E>, st: Statement, key: string, until: int, since: Option<int>, n: int)
    requires Keyed(st)
    requires forall r :: f.key(r) == key ==> !f.keep(f.decode(r))
    ensures Filter(Page(f, st, key, until, since, n), Kept(f)) == []
  {
    var page := Page(f, st, key, until, since, n);
    PageMatches(f, st, key, until, since, n);
    FilterNone(page, Kept(f));
  }

  /** Dropping the last id keeps the ids distinct, and the last id is not among the rest. */
  lemma PopDistinct(pool: seq<string>)
    requires |pool| > 0 && NoDup(pool)
    ensures NoDup(pool[..|pool| - 1]) && pool[|pool| - 1] !in pool[..|pool| - 1]
  {
    var rest := pool[..|pool| - 1];
    forall i, j | 0 <= i < j < |rest|
      ensures rest[i] != rest[j]
    {
      assert rest[i] == pool[i] && rest[j] == pool[j];
    }
    forall j | 0 <= j < |rest|
      ensures rest[j] != pool[|pool| - 1]
    {
      assert pool[j] != pool[|pool| - 1];
    }
  }

  /**
   * A list-feed iteration whose filter rejects every row of the user it
   * pops keeps no row and leaves distinct ids.
   */
  lemma ListStepKeepsNothing<R(!new), E>(f: Feed<R, E>, p: Plan, s: ScanState<R>)
    requires PlanOk(p) && Running(p, s) && p.kind == ListFeed && Keyed(p.statement)
    requires s.rows == [] && NoDup(s.pool)
    requires |s.pool| > 0 ==> forall r :: f.key(r) == s.pool[|s.pool| - 1] ==> !f.keep(f.decode(r))
    ensures After(Step(f, p, s)).rows == [] && NoDup(After(Step(f, p, s)).pool)
  {
    if |s.pool| > 0 {
      var key := s.pool[|s.pool| - 1];
      var rest := s.pool[..|s.pool| - 1];
      PopDistinct(s.pool);
      if key != "" {
        var page := Page(f, p.statement, key, QueryCursor(p, s.until), p.since, p.fetchLimit);
        assert Step(f, p, s) == AfterPage(f, p, s, rest, page);
        PageKeepsNone(f, p.statement, key, QueryCursor(p, s.until), p.since, p.fetchLimit);
      }
    }
  }

  /**
   * A list-feed loop whose filter, on every distinct pool, rejects every
   * row of the user about to be popped keeps no row at all.
   */
  lemma {:induction false} PoolScanKeepsNothing<R(!new), E>(feeds: seq<string> -> Feed<R, E>, table: seq<R>, stamp: R -> int,
                                                            p: Plan, s: ScanState<R>)
    requires PlanOk(p) && p.kind == ListFeed && Keyed(p.statement)
    requires forall pool :: feeds(pool).table == table && feeds(pool).stamp == stamp
    requires forall pool, r :: NoDup(pool) && |pool| > 0 && feeds(pool).key(r) == pool[|pool| - 1] ==>
      !feeds(pool).keep(feeds(pool).decode(r))
    requires s.rows == [] && NoDup(s.pool)
    ensures PoolScan(feeds, table, stamp, p, s).rows == []
    decreases Max(0, p.maxPartitions) - s.scanned, |s.pool|, CountBelow(table, stamp, s.until)
  {
    if Running(p, s) {
      var f := feeds(s.pool);
      ListStepKeepsNothing(f, p, s);
      if Step(f, p, s).Again? {
        StepProgress(f, p, s);
        PoolScanKeepsNothing(feeds, table, stamp, p, Step(f, p, s).next);
      }
    }
  }

  /**
   * As written, the whole list-feed loop of a "users" antenna with distinct
   * ids keeps no row: every row fetched is by the user just popped, and
   * that user is no longer in the list the closure reads.
   */
  lemma AliasedScanKeepsNothing(rows: seq<NoteRow>, me: string, rel: NoteRelations, suspendedUserIds: seq<string>,
                                a: Antenna, re2: RegexTest, p: Plan, s: ScanState<NoteRow>)
    requires PlanOk(p) && p.kind == ListFeed && p.statement == NoteByUserId && a.src == UsersSource
    requires s.rows == [] && NoDup(s.pool)
    ensures AliasedScan(rows, me, rel, suspendedUserIds, a, re2, p, s).rows == []
  {
    var feeds := AliasedFeeds(rows, me, rel, suspendedUserIds, a, re2);
    forall pool, r | NoDup(pool) && |pool| > 0 && feeds(pool).key(r) == pool[|pool| - 1]
      ensures !feeds(pool).keep(feeds(pool).decode(r))
    {
      PopDistinct(pool);
      UnlistedAuthorFails(ParseScyllaNote(r), me, rel, suspendedUserIds, ScopeOf(a, Popped(pool)), re2);
    }
    PoolScanKeepsNothing(feeds, rows, RowCreatedAt, p, s);
  }

  /**
   * Once the closure's filters are awaited, and otherwise as written, a
   * "users" antenna whose accounts resolve to distinct ids answers `[]`
   * whatever the table holds; without a resolved id it fails
   * with the list feed's missing-ids error.
   */
  lemma UsersAntennaAwaitedEmpty(ps: AntennaParams, me: string, a: Antenna, userIds: seq<string>, rel: NoteRelations,
                                   suspendedUserIds: seq<string>, re2: RegexTest, rows: seq<NoteRow>, e: Engine)
    requires a.src == UsersSource && NoDup(userIds)
    ensures AntennaPageAwaited(ps, me, a, userIds, rel, suspendedUserIds, re2, rows, e)
         == if |userIds| == 0 then Err("Feed list needs userIds") else Ok([])
  {
    var pp := PageOf(ps, userIds);
    if |userIds| > 0 {
      assert MissingParam(ListFeed, pp, Some(me)).None?;
      var q := PreparePaginationQuery(ListFeed, pp, e.now, e.getTimestamp);
      var p := MakePlan(ListFeed, pp, Some(me), q, e.queryLimit, e.maxPartitions, false);
      var end := AliasedScan(rows, me, rel, suspendedUserIds, a, re2, p, ScanState(q.until, 0, userIds, []));
      AliasedScanKeepsNothing(rows, me, rel, suspendedUserIds, a, re2, p, ScanState(q.until, 0, userIds, []));
      var sorted := SortDesc(MapSeq(end.rows, ParseScyllaNote), CreatedAt);
      assert |sorted| == 0;
      assert AntennaPageAwaited(ps, me, a, userIds, rel, suspendedUserIds, re2, rows, e) == Ok(JsSlice(sorted, 0, ps.limit));
    } else {
      assert MissingParam(ListFeed, pp, Some(me)) == Some("Feed list needs userIds");
    }
  }

  /**
   * The example: the caller's "users" antenna follows one account, which
   * resolves to "A". Once the closure's filters are awaited, and otherwise
   * as written, the endpoint answers `[]` for every table, including one
   * holding a public note by "A" older than the cursor.
   */
  lemma OneAccountAntennaAwaited(ps: AntennaParams, me: string, rel: NoteRelations, suspendedUserIds: seq<string>,
                                   re2: RegexTest, rows: seq<NoteRow>, e: Engine)
    ensures var a := Antenna(ps.antennaId, me, UsersSource, ["alice"], [], [], false, true, false);
      AntennaNotesAwaited(ps, me, [a], (acct: string) => Some("A"), rel, suspendedUserIds, re2, rows, e) == Ok([])
  {
    var a := Antenna(ps.antennaId, me, UsersSource, ["alice"], [], [], false, true, false);
    var resolve := (acct: string) => Some("A");
    assert FindAntenna([a], ps.antennaId, me) == Some(a);
    assert ResolvedIds(a.users, resolve) == ["A"] by {
      assert a.users[..0] == [];
    }
    UsersAntennaAwaitedEmpty(ps, me, a, ["A"], rel, suspendedUserIds, re2, rows, e);
  }

  /** What the closure asks of a note besides the users rule: the shared screens and the file and keyword rules. */
  predicate PassBesidesSource(n: Note, me: string, rel: NoteRelations, suspendedUserIds: seq<string>, sc: Scope, re2: RegexTest) {
    AntennaScreens(n, me, sc.antenna.withReplies, rel, suspendedUserIds, re2)
    && (sc.antenna.withFile ==> |n.files| > 0)
    && (|sc.keywords| > 0 ==> Truthy(n.text) && KeywordHit(n.text.value, sc.keywords, sc.antenna.caseSensitive))
  }

  /** With the full resolved list, a note by a listed user passes the users rule. */
  lemma ListedAuthorPasses(n: Note, me: string, rel: NoteRelations, suspendedUserIds: seq<string>, sc: Scope, re2: RegexTest)
    requires sc.antenna.src == UsersSource && n.userId in sc.userIds
    ensures AntennaPass(n, me, rel, suspendedUserIds, sc, re2) <==> PassBesidesSource(n, me, rel, suspendedUserIds, sc, re2)
  {
  }

  /** A row of user `u`'s page is by `u`, and it is among `u`'s kept rows exactly when the filter keeps it. */
  lemma PageRowKept<R(!new), E>(f: Feed<R, E>, p: Plan, u: string, row: R)
    requires Keyed(p.statement) && u != "" && row in Page(f, p.statement, u, p.start, p.since, p.fetchLimit)
    ensures f.key(row) == u && (row in UserRows(f, p)(u) <==> f.keep(f.decode(row)))
  {
    PageMatches(f, p.statement, u, p.start, p.since, p.fetchLimit);
  }

  /**
   * The corrected reading, which the rest of this model uses: the call on
   * a "users" antenna with resolved ids succeeds and keeps exactly the
   * pages of the users it popped, each queried from the upper bound.
   */
  lemma UsersAntennaComplete(ps: AntennaParams, me: string, a: Antenna, userIds: seq<string>, rel: NoteRelations,
                             suspendedUserIds: seq<string>, re2: RegexTest, rows: seq<NoteRow>, e: Engine)
    requires a.src == UsersSource && |userIds| > 0
    ensures var f := AntennaFeedOf(rows, me, rel, suspendedUserIds, ScopeOf(a, userIds), re2);
      var pp := PageOf(ps, userIds);
      var p := MakePlan(ListFeed, pp, Some(me), PreparePaginationQuery(ListFeed, pp, e.now, e.getTimestamp),
                        e.queryLimit, e.maxPartitions, true);
      var r := Paginate(f, ListFeed, pp, Some(me), e.now, e.getTimestamp, true, e.queryLimit, e.maxPartitions);
      r.Ok? && r.value.pool <= userIds
      && r.value.rows == ListRows(UserRows(f, p), userIds[|r.value.pool|..])
  {
    var f := AntennaFeedOf(rows, me, rel, suspendedUserIds, ScopeOf(a, userIds), re2);
    AntennaReadFails(f, a.src, ps, userIds, me, e);
    PaginateListComplete(f, PageOf(ps, userIds), Some(me), e.now, e.getTimestamp, e.queryLimit, e.maxPartitions);
  }

  /**
   * With the corrected closure a row of a listed user's page is kept
   * exactly when the shared screens and the file and keyword rules accept
   * it: the users rule drops none of them.
   */
  lemma UsersAntennaRowKept(me: string, a: Antenna, userIds: seq<string>, rel: NoteRelations, suspendedUserIds: seq<string>,
                            re2: RegexTest, rows: seq<NoteRow>, p: Plan, u: string, row: NoteRow)
    requires a.src == UsersSource && p.statement == NoteByUserId && u in userIds && u != ""
    ensures var sc := ScopeOf(a, userIds);
      var f := AntennaFeedOf(rows, me, rel, suspendedUserIds, sc, re2);
      row in Page(f, p.statement, u, p.start, p.since, p.fetchLimit) ==>
        (row in UserRows(f, p)(u) <==> PassBesidesSource(ParseScyllaNote(row), me, rel, suspendedUserIds, sc, re2))
  {
    var sc := ScopeOf(a, userIds);
    var f := AntennaFeedOf(rows, me, rel, suspendedUserIds, sc, re2);
    if row in Page(f, p.statement, u, p.start, p.since, p.fetchLimit) {
      PageRowKept(f, p, u, row);
      ListedAuthorPasses(ParseScyllaNote(row), me, rel, suspendedUserIds, sc, re2);
    }
  }

  // ---------------------------------------------------------------------
  // The closure as written: the filters are not awaited

  /**
   * The closure as written (antennas/notes.ts:145-189). The six filters of
   * lines 146-159 are `async` and called without `await`, so `filtered`
   * holds a Promise from line 146 on (`filterMutedUser`, `filterBlockUser`
   * and `filterMutedRenotes` are also called without their `user`
   * argument). The `filtered.filter` of line 161, 165, 168 or 174 is then a
   * `TypeError`; when none of them runs, the closure returns the Promise of
   * `filterMutedRenotes`, whose own `notes.filter` meets the Promise it was
   * given, so the `await filter.note(notes)` of `execPaginationQuery`
   * rethrows that `TypeError`.
   */
  function AntennaClosureAsWritten(notes: seq<Note>, me: string, rel: NoteRelations, sc: Scope): Result<seq<Note>> {
    var visible := Unawaited(Notes(notes), true);
    var replies := Unawaited(visible, !sc.antenna.withReplies);
    var mutedUsers := Unawaited(replies, true);
    var mutedWords := Unawaited(mutedUsers, |rel.mutedWords| > 0);
    var blocked := Unawaited(mutedWords, true);
    var renotes := Unawaited(blocked, true);
    var withFile := FilterIf(Ok(renotes), sc.antenna.withFile, HasFilesPred());
    var source := FilterIf(withFile, !sc.antenna.src.OtherSource?, SourcePred(sc));
    match FilterIf(source, |sc.keywords| > 0, KeywordPred(sc))
    case Ok(Notes(kept)) => Ok(kept)
    case Ok(_) => Err(TypeError)
    case Err(msg) => Err(msg)
  }

  /** As written, the closure fails with a `TypeError` on every batch, whatever the antenna. */
  lemma AntennaClosureThrows(me: string, rel: NoteRelations, sc: Scope)
    ensures forall notes :: AntennaClosureAsWritten(notes, me, rel, sc) == Err(TypeError)
  {
  }

  /** The closure as written, as the value handed to `execPaginationQuery`. */
  function AntennaCloseAsWritten(me: string, rel: NoteRelations, sc: Scope): seq<Note> -> Result<seq<Note>> {
    (notes: seq<Note>) => AntennaClosureAsWritten(notes, me, rel, sc)
  }

  /** The walk of `execPaginationQuery` under the throwing closure. */
  function AntennaReadAsWritten(ps: AntennaParams, me: string, a: Antenna, userIds: seq<string>, rel: NoteRelations,
                                suspendedUserIds: seq<string>, re2: RegexTest, rows: seq<NoteRow>, e: Engine)
    : Result<ScanState<NoteRow>> {
    AntennaClosureThrows(me, rel, ScopeOf(a, userIds));
    PaginateThrowing(AntennaFeedOf(rows, me, rel, suspendedUserIds, ScopeOf(a, userIds), re2),
                     AntennaCloseAsWritten(me, rel, ScopeOf(a, userIds)), AntennaKind(a.src), PageOf(ps, userIds),
                     Some(me), e.now, e.getTimestamp, true, e.queryLimit, e.maxPartitions)
  }

  /** The read of the store branch as written: the walk's rows, sorted newest first and cut to `limit`. */
  function AntennaPageAsWritten(ps: AntennaParams, me: string, a: Antenna, userIds: seq<string>, rel: NoteRelations,
                                suspendedUserIds: seq<string>, re2: RegexTest, rows: seq<NoteRow>, e: Engine): Result<seq<Note>> {
    var r := AntennaReadAsWritten(ps, me, a, userIds, rel, suspendedUserIds, re2, rows, e);
    if r.Err? then Err(r.msg) else Ok(JsSlice(SortDesc(MapSeq(r.value.rows, ParseScyllaNote), CreatedAt), 0, ps.limit))
  }

  /** The store branch's notes as written. */
  function AntennaNotesAsWritten(ps: AntennaParams, me: string, antennas: seq<Antenna>, resolve: string -> Option<string>,
                                 rel: NoteRelations, suspendedUserIds: seq<string>, re2: RegexTest, rows: seq<NoteRow>,
                                 e: Engine): Result<seq<Note>> {
    var a := FindAntenna(antennas, ps.antennaId, me);
    if a.None? then Err(NoSuchAntenna)
    else AntennaPageAsWritten(ps, me, a.value, ResolvedIds(a.value.users, resolve), rel, suspendedUserIds, re2, rows, e)
  }

  /** The same walk with a closure that keeps every row. */
  function AntennaProbe(ps: AntennaParams, me: string, a: Antenna, userIds: seq<string>, rel: NoteRelations,
                        suspendedUserIds: seq<string>, re2: RegexTest, rows: seq<NoteRow>, e: Engine)
    : Result<ScanState<NoteRow>> {
    PaginateAsWritten(KeepAll(AntennaFeedOf(rows, me, rel, suspendedUserIds, ScopeOf(a, userIds), re2)),
                      AntennaKind(a.src), PageOf(ps, userIds), Some(me), e.now, e.getTimestamp, true,
                      e.queryLimit, e.maxPartitions)
  }

  /** The walk as written fails as `AntennaProbe` does, or with a `TypeError` exactly when `AntennaProbe` finds a row. */
  lemma AntennaReadMeetsRow(ps: AntennaParams, me: string, a: Antenna, userIds: seq<string>, rel: NoteRelations,
                            suspendedUserIds: seq<string>, re2: RegexTest, rows: seq<NoteRow>, e: Engine)
    ensures var r := AntennaReadAsWritten(ps, me, a, userIds, rel, suspendedUserIds, re2, rows, e);
      var probe := AntennaProbe(ps, me, a, userIds, rel, suspendedUserIds, re2, rows, e);
      (probe.Err? ==> r == probe)
      && (probe.Ok? ==> (r.Err? <==> probe.value.rows != []) && (r.Err? ==> r.msg == TypeError))
      && (r.Ok? ==> r.value.rows == [])
  {
    var sc := ScopeOf(a, userIds);
    AntennaClosureThrows(me, rel, sc);
    PaginateThrowingMeetsRow(AntennaFeedOf(rows, me, rel, suspendedUserIds, sc, re2), AntennaCloseAsWritten(me, rel, sc),
                             TypeError, AntennaKind(a.src), PageOf(ps, userIds), Some(me), e.now, e.getTimestamp,
                             true, e.queryLimit, e.maxPartitions);
  }

  /** A "users" antenna without a resolved id fails the list feed's check, keeping every row or not. */
  lemma AntennaProbeNoIds(ps: AntennaParams, me: string, a: Antenna, userIds: seq<string>, rel: NoteRelations,
                          suspendedUserIds: seq<string>, re2: RegexTest, rows: seq<NoteRow>, e: Engine)
    requires a.src == UsersSource && |userIds| == 0
    ensures AntennaProbe(ps, me, a, userIds, rel, suspendedUserIds, re2, rows, e) == Err("Feed list needs userIds")
  {
    assert MissingParam(ListFeed, PageOf(ps, userIds), Some(me)) == Some("Feed list needs userIds");
  }

  /**
   * As written, a read that passes the parameter checks fails with a
   * `TypeError` exactly when the walk meets a page with rows, that is, when
   * the same walk keeping every row (`AntennaProbe`) would return one;
   * otherwise it answers `[]`. A "users" antenna with no resolved id fails
   * the list feed's check before any read.
   */
  lemma AntennaAsWrittenFails(ps: AntennaParams, me: string, a: Antenna, userIds: seq<string>, rel: NoteRelations,
                              suspendedUserIds: seq<string>, re2: RegexTest, rows: seq<NoteRow>, e: Engine)
    ensures var r := AntennaPageAsWritten(ps, me, a, userIds, rel, suspendedUserIds, re2, rows, e);
      var probe := AntennaProbe(ps, me, a, userIds, rel, suspendedUserIds, re2, rows, e);
      (a.src == UsersSource && |userIds| == 0 ==> r == Err("Feed list needs userIds"))
      && (probe.Err? ==> r == Err(probe.msg))
      && (probe.Ok? ==> (r == Err(TypeError) <==> probe.value.rows != []) && (r.Err? ==> r == Err(TypeError)))
      && (r.Ok? ==> r.value == [])
  {
    AntennaReadMeetsRow(ps, me, a, userIds, rel, suspendedUserIds, re2, rows, e);
    var r := AntennaReadAsWritten(ps, me, a, userIds, rel, suspendedUserIds, re2, rows, e);
    if r.Ok? {
      EmptyAnswer(r.value.rows, ps.limit);
    }
    if a.src == UsersSource && |userIds| == 0 {
      AntennaProbeNoIds(ps, me, a, userIds, rel, suspendedUserIds, re2, rows, e);
    }
  }

  /** No rows give an empty answer. */
  lemma EmptyAnswer(rows: seq<NoteRow>, limit: int)
    requires rows == []
    ensures JsSlice(SortDesc(MapSeq(rows, ParseScyllaNote), CreatedAt), 0, limit) == []
  {
  }
}

// Partition-scan pagination over the wide-column store: cursor resolution
// (`preparePaginationQuery`) and the day-bucket walking loop
// (`execPaginationQuery`).
//
// A table is a sequence of rows in clustering order (newest first). A bound
// statement selects the rows of one partition key (when the statement has a
// key column), of the UTC day of the cursor (when the table is partitioned by
// `createdAtDate`), strictly older than the cursor and strictly newer than the
// lower bound, and returns at most `LIMIT` of them.

module Pagination {
  import opened Common
  import opened ScyllaRows

  datatype FeedKind =
    | HomeFeed | LocalFeed | RecommendedFeed | GlobalFeed | RenotesFeed | UserFeed
    | ListFeed | ChannelFeed | NotificationFeed | ReactionFeed | AntennaFeed

  function FeedName(k: FeedKind): string {
    match k
    case HomeFeed => "home"
    case LocalFeed => "local"
    case RecommendedFeed => "recommended"
    case GlobalFeed => "global"
    case RenotesFeed => "renotes"
    case UserFeed => "user"
    case ListFeed => "list"
    case ChannelFeed => "channel"
    case NotificationFeed => "notification"
    case ReactionFeed => "reaction"
    case AntennaFeed => "antenna"
  }

  /** The request parameters `execPaginationQuery` reads. */
  datatype PageParams = PageParams(
    limit: int,
    untilId: Option<string>,
    untilDate: Option<int>,
    sinceId: Option<string>,
    sinceDate: Option<int>,
    noteId: Option<string>,
    channelId: Option<string>,
    userIds: Option<seq<string>>)

  /** The prepared select statements of the store. */
  datatype Statement =
    | HomeByUserAndDate | LocalByDate | GlobalByDate | NoteByRenoteId | NoteByUserId
    | NoteByChannelId | NotificationByTargetId | ReactionByUserId | NoteByDate

  function StatementFor(kind: FeedKind): Statement {
    match kind
    case HomeFeed => HomeByUserAndDate
    case LocalFeed => LocalByDate
    case RecommendedFeed => GlobalByDate
    case GlobalFeed => GlobalByDate
    case RenotesFeed => NoteByRenoteId
    case UserFeed => NoteByUserId
    case ListFeed => NoteByUserId
    case ChannelFeed => NoteByChannelId
    case NotificationFeed => NotificationByTargetId
    case ReactionFeed => ReactionByUserId
    case AntennaFeed => NoteByDate
  }

  /** The statement binds a key column (`feedUserId`, `userId`, `renoteId`, `channelId`, `targetId`). */
  predicate Keyed(st: Statement) {
    !(st == LocalByDate || st == GlobalByDate || st == NoteByDate)
  }

  /** The statement binds `createdAtDate`, so one execution reads one UTC day. */
  predicate DayPartitioned(st: Statement) {
    st == HomeByUserAndDate || st == LocalByDate || st == GlobalByDate
    || st == NotificationByTargetId || st == NoteByDate
  }

  // ---------------------------------------------------------------------
  // Cursor resolution

  /** A JavaScript number used as a condition: present and not zero. */
  predicate NumTruthy(d: Option<int>) {
    d.Some? && d.value != 0
  }

  /** The newest instant asked for: now, or the time encoded in `untilId`. */
  function BaseUntil(ps: PageParams, now: int, getTimestamp: string -> int): int {
    if Truthy(ps.untilId) then getTimestamp(ps.untilId.value) else now
  }

  /** The starting cursor: `untilDate` replaces the base only when it is set and strictly earlier. */
  function ResolveUntil(ps: PageParams, now: int, getTimestamp: string -> int): (r: int)
    ensures !Truthy(ps.untilId) && !NumTruthy(ps.untilDate) ==> r == now
    ensures Truthy(ps.untilId) && !NumTruthy(ps.untilDate) ==> r == getTimestamp(ps.untilId.value)
    ensures r <= BaseUntil(ps, now, getTimestamp)
    ensures NumTruthy(ps.untilDate) ==> r <= ps.untilDate.value
    ensures r == BaseUntil(ps, now, getTimestamp) || (NumTruthy(ps.untilDate) && r == ps.untilDate.value)
  {
    var base := BaseUntil(ps, now, getTimestamp);
    if NumTruthy(ps.untilDate) && ps.untilDate.value < base then ps.untilDate.value else base
  }

  /** The lower bound: the later of `sinceId`'s time and `sinceDate`, or none. */
  function ResolveSince(ps: PageParams, getTimestamp: string -> int): (r: Option<int>)
    ensures r.Some? <==> Truthy(ps.sinceId) || NumTruthy(ps.sinceDate)
    ensures Truthy(ps.sinceId) ==> r.Some? && r.value >= getTimestamp(ps.sinceId.value)
    ensures NumTruthy(ps.sinceDate) ==> r.Some? && r.value >= ps.sinceDate.value
    ensures r.Some? ==>
      (Truthy(ps.sinceId) && r.value == getTimestamp(ps.sinceId.value))
      || (NumTruthy(ps.sinceDate) && r.value == ps.sinceDate.value)
  {
    var byId: Option<int> := if Truthy(ps.sinceId) then Some(getTimestamp(ps.sinceId.value)) else None;
    if NumTruthy(ps.sinceDate) && (byId.None? || ps.sinceDate.value > byId.value) then Some(ps.sinceDate.value)
    else byId
  }

  /** The statement, whether `AND "createdAt" > ?` is appended, and the two bounds. */
  datatype PreparedQuery = PreparedQuery(statement: Statement, sinceClause: bool, until: int, since: Option<int>)

  /** `preparePaginationQuery` */
  function PreparePaginationQuery(kind: FeedKind, ps: PageParams, now: int, getTimestamp: string -> int): (q: PreparedQuery)
    ensures q.statement == StatementFor(kind)
    ensures q.sinceClause <==> Truthy(ps.sinceId) || NumTruthy(ps.sinceDate)
    ensures q.sinceClause <==> q.since.Some?
    ensures q.until == ResolveUntil(ps, now, getTimestamp) && q.since == ResolveSince(ps, getTimestamp)
  {
    var since := ResolveSince(ps, getTimestamp);
    PreparedQuery(StatementFor(kind), since.Some?, ResolveUntil(ps, now, getTimestamp), since)
  }

  // ---------------------------------------------------------------------
  // One table and its bound statement

  /**
   * A table as the loop sees it: its rows, each row's `createdAt` and key
   * column, the decoder applied to every fetched row, and the caller's
   * filter on decoded entities.
   */
  datatype Feed<!R, !E> = Feed(table: seq<R>, stamp: R -> int, key: R -> string, decode: R -> E, keep: E -> bool)

  /** A row satisfies the statement bound to `key`, the cursor `until` and the lower bound. */
  predicate Matches<R, E>(f: Feed<R, E>, st: Statement, key: string, until: int, since: Option<int>, r: R) {
    (Keyed(st) ==> f.key(r) == key)
    && (DayPartitioned(st) ==> Day(f.stamp(r)) == Day(until))
    && f.stamp(r) < until
    && (since.Some? ==> f.stamp(r) > since.value)
  }

  function MatchPred<R, E>(f: Feed<R, E>, st: Statement, key: string, until: int, since: Option<int>): R -> bool {
    r => Matches(f, st, key, until, since, r)
  }

  /** One execution of the statement with `LIMIT n`. */
  function Page<R(!new), E>(f: Feed<R, E>, st: Statement, key: string, until: int, since: Option<int>, n: int): (page: seq<R>)
    ensures |page| <= Max(n, 0)
    ensures forall i :: 0 <= i < |page| ==> page[i] in f.table && f.stamp(page[i]) < until
  {
    PageMatches(f, st, key, until, since, n);
    Take(Filter(f.table, MatchPred(f, st, key, until, since)), n)
  }

  /** Every row of a page is a table row the bound statement selects. */
  lemma PageMatches<R(!new), E>(f: Feed<R, E>, st: Statement, key: string, until: int, since: Option<int>, n: int)
    ensures var page := Take(Filter(f.table, MatchPred(f, st, key, until, since)), n);
      forall i :: 0 <= i < |page| ==> page[i] in f.table && Matches(f, st, key, until, since, page[i])
  {
    var all := Filter(f.table, MatchPred(f, st, key, until, since));
    var page := Take(all, n);
    forall i | 0 <= i < |page|
      ensures page[i] in f.table && Matches(f, st, key, until, since, page[i])
    {
      assert page[i] == all[i] && all[i] in all;
    }
  }

  lemma PageSorted<R(!new), E>(f: Feed<R, E>, st: Statement, key: string, until: int, since: Option<int>, n: int)
    requires SortedDesc(f.table, f.stamp)
    ensures SortedDesc(Page(f, st, key, until, since, n), f.stamp)
  {
    FilterSorted(f.table, MatchPred(f, st, key, until, since), f.stamp);
  }

  // ---------------------------------------------------------------------
  // The scan

  /**
   * What stays fixed during one call: the kind, the statement, the key bound
   * for every kind but the list feed, the resolved bounds, the page size,
   * the target count and the partition budget. `resetPerUser` says whether
   * each list-feed user is queried from `start` (true) or from the cursor
   * left by the previous user (false, the code as written).
   */
  datatype Plan = Plan(
    kind: FeedKind,
    statement: Statement,
    key: string,
    start: int,
    since: Option<int>,
    fetchLimit: int,
    foundLimit: int,
    maxPartitions: int,
    resetPerUser: bool)

  predicate PlanOk(p: Plan) {
    p.fetchLimit > 0 || p.foundLimit <= 0
  }

  /** The cursor bound into one execution. */
  function QueryCursor(p: Plan, until: int): (r: int)
    ensures p.kind != ListFeed || !p.resetPerUser ==> r == until
    ensures p.kind == ListFeed && p.resetPerUser ==> r == p.start
  {
    if p.kind == ListFeed && p.resetPerUser then p.start else until
  }

  /** The loop's variables: the cursor, the partition count, the user pool and the kept rows. */
  datatype ScanState<R> = ScanState(until: int, scanned: int, pool: seq<string>, rows: seq<R>)

  /** The outcome of one iteration: the loop stops (a `break`) or goes round again. */
  datatype Turn<R> = Stop(last: ScanState<R>) | Again(next: ScanState<R>)

  /** The rows whose decoding passes the caller's filter. */
  function Kept<R, E>(f: Feed<R, E>): R -> bool {
    Compose(f.decode, f.keep)
  }

  /** The loop condition: fewer than `foundLimit` rows kept and fewer than `maxPartitions` short pages. */
  predicate Running<R>(p: Plan, s: ScanState<R>) {
    |s.rows| < p.foundLimit && s.scanned < p.maxPartitions
  }

  /**
   * One iteration of the loop of `execPaginationQuery`. The list feed pops
   * its key from the end of the pool and stops on an empty pool or an empty
   * id; a non-empty page moves the cursor to its last row; a page shorter
   * than the limit counts one partition and moves the cursor to the end of
   * the previous UTC day, stopping once that is before the lower bound.
   * Every iteration that goes on either counts a partition, pops a user or
   * lowers the cursor past at least one row.
   */
  function Step<R(!new), E>(f: Feed<R, E>, p: Plan, s: ScanState<R>): (r: Turn<R>)
    requires PlanOk(p) && Running(p, s)
  {
    if p.kind == ListFeed && |s.pool| == 0 then Stop(s)
    else if p.kind == ListFeed && s.pool[|s.pool| - 1] == "" then Stop(s.(pool := s.pool[..|s.pool| - 1]))
    else
      var key := if p.kind == ListFeed then s.pool[|s.pool| - 1] else p.key;
      var rest := if p.kind == ListFeed then s.pool[..|s.pool| - 1] else s.pool;
      var page := Page(f, p.statement, key, QueryCursor(p, s.until), p.since, p.fetchLimit);
      AfterPage(f, p, s, rest, page)
  }

  /** The rest of an iteration once `page` came back and the pool is `rest`. */
  function AfterPage<R(!new), E>(f: Feed<R, E>, p: Plan, s: ScanState<R>, rest: seq<string>, page: seq<R>): (r: Turn<R>)
    requires PlanOk(p) && Running(p, s)
  {
    var rows := s.rows + Filter(page, Kept(f));
    var last := if |page| > 0 then f.stamp(page[|page| - 1]) else s.until;
    if |page| < p.fetchLimit then
      var prev := EndOfPreviousDay(last);
      var t := ScanState(prev, s.scanned + 1, rest, rows);
      if p.since.Some? && prev < p.since.value then Stop(t) else Again(t)
    else Again(ScanState(last, s.scanned, rest, rows))
  }

  /** The measure of `Scan` goes down: a partition is counted, a user is popped, or the cursor passes a row. */
  predicate Progress<R(!new), E>(f: Feed<R, E>, s: ScanState<R>, t: ScanState<R>) {
    (t.scanned == s.scanned + 1)
    || (t.scanned == s.scanned
        && (|t.pool| < |s.pool|
            || (|t.pool| == |s.pool| && CountBelow(f.table, f.stamp, t.until) < CountBelow(f.table, f.stamp, s.until))))
  }

  /** Every iteration that goes on counts a partition, pops a user, or moves the cursor past a row. */
  lemma StepProgress<R(!new), E>(f: Feed<R, E>, p: Plan, s: ScanState<R>)
    requires PlanOk(p) && Running(p, s)
    ensures Step(f, p, s).Again? ==> Progress(f, s, Step(f, p, s).next)
  {
    if !(p.kind == ListFeed && (|s.pool| == 0 || s.pool[|s.pool| - 1] == "")) {
      var key := if p.kind == ListFeed then s.pool[|s.pool| - 1] else p.key;
      var page := Page(f, p.statement, key, QueryCursor(p, s.until), p.since, p.fetchLimit);
      if |page| >= p.fetchLimit && p.kind != ListFeed {
        CountBelowStrict(f.table, f.stamp, f.stamp(page[|page| - 1]), s.until, page[|page| - 1]);
      }
    }
  }

  /** The loop of `execPaginationQuery` run from state `s` to where it stops. */
  function Scan<R(!new), E>(f: Feed<R, E>, p: Plan, s: ScanState<R>): (e: ScanState<R>)
    requires PlanOk(p)
    decreases Max(0, p.maxPartitions) - s.scanned, |s.pool|, CountBelow(f.table, f.stamp, s.until)
  {
    if !Running(p, s) then s
    else
      match Step(f, p, s)
      case Stop(t) => t
      case Again(t) =>
        StepProgress(f, p, s);
        Scan(f, p, t)
  }

  // ---------------------------------------------------------------------
  // Validation and the whole call

  predicate NeedsUserId(kind: FeedKind) {
    kind == HomeFeed || kind == UserFeed || kind == NotificationFeed || kind == ReactionFeed
  }

  /** The error `execPaginationQuery` throws before querying, if any. */
  function MissingParam(kind: FeedKind, ps: PageParams, userId: Option<string>): Option<string> {
    if NeedsUserId(kind) && !Truthy(userId) then Some("Feed " + FeedName(kind) + " needs userId")
    else if kind == RenotesFeed && !Truthy(ps.noteId) then Some("Feed renotes needs noteId")
    else if kind == ChannelFeed && !Truthy(ps.channelId) then Some("Feed channel needs channelId")
    else if kind == ListFeed && (ps.userIds.None? || |ps.userIds.value| == 0) then Some("Feed list needs userIds")
    else None
  }

  /** The value bound to the key column; the list feed binds a popped user id instead. */
  function KeyValue(kind: FeedKind, ps: PageParams, userId: Option<string>): string {
    if NeedsUserId(kind) then OrElse(userId, "")
    else if kind == RenotesFeed then OrElse(ps.noteId, "")
    else if kind == ChannelFeed then OrElse(ps.channelId, "")
    else ""
  }

  lemma MulNonPositive(a: int, b: int)
    requires a <= 0 && b >= 0
    ensures a * b <= 0
  {
  }

  /**
   * The plan of one call: list feeds fetch `limit` rows per user and want
   * `limit` times the number of users, every other kind fetches
   * `queryLimit` rows and wants `limit`.
   */
  function MakePlan(kind: FeedKind, ps: PageParams, userId: Option<string>, q: PreparedQuery,
                    queryLimit: int, maxPartitions: int, resetPerUser: bool): (p: Plan)
    requires queryLimit > 0
    ensures PlanOk(p) && p.start == q.until && p.since == q.since && p.statement == q.statement
    ensures p.kind == kind && p.maxPartitions == maxPartitions && p.resetPerUser == resetPerUser
    ensures kind == ListFeed && ps.userIds.Some? ==> p.fetchLimit == ps.limit && p.foundLimit == ps.limit * |ps.userIds.value|
    ensures kind != ListFeed ==> p.fetchLimit == queryLimit && p.foundLimit == ps.limit
  {
    var users := if kind == ListFeed && ps.userIds.Some? then |ps.userIds.value| else 1;
    assert ps.limit <= 0 ==> ps.limit * users <= 0 by {
      if ps.limit <= 0 {
        MulNonPositive(ps.limit, users);
      }
    }
    Plan(kind, q.statement, KeyValue(kind, ps, userId), q.until, q.since,
      if kind == ListFeed then ps.limit else queryLimit,
      ps.limit * users, maxPartitions, resetPerUser)
  }

  /**
   * The outcome of `execPaginationQuery`: `[]` with the store disabled, the
   * missing-parameter error, or where the scan from the resolved cursor stops.
   */
  function Paginate<R(!new), E>(f: Feed<R, E>, kind: FeedKind, ps: PageParams, userId: Option<string>,
                                now: int, getTimestamp: string -> int,
                                storeEnabled: bool, queryLimit: int, maxPartitions: int): (r: Result<ScanState<R>>)
    requires queryLimit > 0
    ensures !storeEnabled ==> r.Ok? && r.value.rows == [] && r.value.pool == OrElse(ps.userIds, [])
    ensures storeEnabled && NeedsUserId(kind) && !Truthy(userId) ==> r == Err("Feed " + FeedName(kind) + " needs userId")
    ensures storeEnabled && kind == RenotesFeed && !Truthy(ps.noteId) ==> r == Err("Feed renotes needs noteId")
    ensures storeEnabled && kind == ChannelFeed && !Truthy(ps.channelId) ==> r == Err("Feed channel needs channelId")
    ensures storeEnabled && kind == ListFeed && (ps.userIds.None? || |ps.userIds.value| == 0) ==> r == Err("Feed list needs userIds")
    ensures r.Err? ==> storeEnabled && MissingParam(kind, ps, userId).Some?
  {
    if !storeEnabled then Ok(ScanState(ResolveUntil(ps, now, getTimestamp), 0, OrElse(ps.userIds, []), []))
    else
      var missing := MissingParam(kind, ps, userId);
      if missing.Some? then Err(missing.value)
      else
        var q := PreparePaginationQuery(kind, ps, now, getTimestamp);
        var p := MakePlan(kind, ps, userId, q, queryLimit, maxPartitions, true);
        Ok(Scan(f, p, ScanState(q.until, 0, OrElse(ps.userIds, []), [])))
  }

  /** The per-user reset only changes what the list feed binds as its cursor. */
  lemma {:induction false} ScanIgnoresReset<R(!new), E>(f: Feed<R, E>, p: Plan, s: ScanState<R>)
    requires PlanOk(p) && p.kind != ListFeed
    ensures Scan(f, p, s) == Scan(f, p.(resetPerUser := !p.resetPerUser), s)
    decreases Max(0, p.maxPartitions) - s.scanned, |s.pool|, CountBelow(f.table, f.stamp, s.until)
  {
    var p' := p.(resetPerUser := !p.resetPerUser);
    if Running(p, s) {
      var page := Page(f, p.statement, p.key, s.until, p.since, p.fetchLimit);
      assert Step(f, p, s) == AfterPage(f, p, s, s.pool, page);
      assert Step(f, p', s) == AfterPage(f, p', s, s.pool, page);
      if Step(f, p, s).Again? {
        StepProgress(f, p, s);
        ScanIgnoresReset(f, p, Step(f, p, s).next);
      }
    }
  }

  /**
   * `execPaginationQuery` exactly as written: each list-feed user is queried
   * from the cursor the previous user left rather than from the resolved
   * upper bound. Every other kind behaves as `Paginate`.
   */
  function PaginateAsWritten<R(!new), E>(f: Feed<R, E>, kind: FeedKind, ps: PageParams, userId: Option<string>,
                                         now: int, getTimestamp: string -> int,
                                         storeEnabled: bool, queryLimit: int, maxPartitions: int): (r: Result<ScanState<R>>)
    requires queryLimit > 0
    ensures kind != ListFeed ==> r == Paginate(f, kind, ps, userId, now, getTimestamp, storeEnabled, queryLimit, maxPartitions)
    ensures r.Err? <==> storeEnabled && MissingParam(kind, ps, userId).Some?
  {
    if !storeEnabled then Ok(ScanState(ResolveUntil(ps, now, getTimestamp), 0, OrElse(ps.userIds, []), []))
    else
      var missing := MissingParam(kind, ps, userId);
      if missing.Some? then Err(missing.value)
      else
        var q := PreparePaginationQuery(kind, ps, now, getTimestamp);
        var p := MakePlan(kind, ps, userId, q, queryLimit, maxPartitions, false);
        var s0 := ScanState(q.until, 0, OrElse(ps.userIds, []), []);
        assert kind != ListFeed ==> Scan(f, p, s0) == Scan(f, p.(resetPerUser := true), s0) by {
          if kind != ListFeed {
            ScanIgnoresReset(f, p, s0);
          }
        }
        Ok(Scan(f, p, s0))
  }

  /** The page an iteration fetches: `[]` when the list feed stops before querying. */
  function StepPage<R(!new), E>(f: Feed<R, E>, p: Plan, s: ScanState<R>): seq<R> {
    if p.kind == ListFeed && (|s.pool| == 0 || s.pool[|s.pool| - 1] == "") then []
    else
      var key := if p.kind == ListFeed then s.pool[|s.pool| - 1] else p.key;
      Page(f, p.statement, key, QueryCursor(p, s.until), p.since, p.fetchLimit)
  }

  /**
   * The loop of `execPaginationQuery` under a note closure `close` that
   * throws whenever it is called. The closure runs on the decoded rows of
   * every page that has any (scylla.ts:481, 496-499), so the call fails
   * with the closure's error at the first such page; until then every page
   * is empty and every iteration is a `Step`.
   */
  function ScanThrowing<R(!new), E(!new)>(f: Feed<R, E>, close: seq<E> -> Result<seq<E>>, p: Plan, s: ScanState<R>): Result<ScanState<R>>
    requires PlanOk(p)
    requires forall batch :: close(batch).Err?
    decreases Max(0, p.maxPartitions) - s.scanned, |s.pool|, CountBelow(f.table, f.stamp, s.until)
  {
    if !Running(p, s) then Ok(s)
    else
      var page := StepPage(f, p, s);
      if |page| > 0 then Err(close(MapSeq(page, f.decode)).msg)
      else
        match Step(f, p, s)
        case Stop(t) => Ok(t)
        case Again(t) =>
          StepProgress(f, p, s);
          ScanThrowing(f, close, p, t)
  }

  /**
   * `execPaginationQuery` as written (the list walk of `PaginateAsWritten`)
   * when the caller's note closure throws whenever it is called.
   */
  function PaginateThrowing<R(!new), E(!new)>(f: Feed<R, E>, close: seq<E> -> Result<seq<E>>, kind: FeedKind, ps: PageParams,
                                        userId: Option<string>, now: int, getTimestamp: string -> int,
                                        storeEnabled: bool, queryLimit: int, maxPartitions: int): Result<ScanState<R>>
    requires queryLimit > 0
    requires forall batch :: close(batch).Err?
  {
    if !storeEnabled then Ok(ScanState(ResolveUntil(ps, now, getTimestamp), 0, OrElse(ps.userIds, []), []))
    else
      var missing := MissingParam(kind, ps, userId);
      if missing.Some? then Err(missing.value)
      else
        var q := PreparePaginationQuery(kind, ps, now, getTimestamp);
        var p := MakePlan(kind, ps, userId, q, queryLimit, maxPartitions, false);
        ScanThrowing(f, close, p, ScanState(q.until, 0, OrElse(ps.userIds, []), []))
  }

  /**
   * `execPaginationQuery`: returns the decoded, filtered rows, or the error
   * for a missing parameter, and the caller's user-id pool as the list feed
   * leaves it.
   */
  method ExecPaginationQuery<R(!new), E(!new)>(f: Feed<R, E>, kind: FeedKind, ps: PageParams, userId: Option<string>,
                                         now: int, getTimestamp: string -> int,
                                         storeEnabled: bool, queryLimit: int, maxPartitions: int)
    returns (res: Result<seq<E>>, userIdsLeft: seq<string>)
    requires queryLimit > 0
    ensures var spec := Paginate(f, kind, ps, userId, now, getTimestamp, storeEnabled, queryLimit, maxPartitions);
      (spec.Err? ==> res == Err(spec.msg) && userIdsLeft == OrElse(ps.userIds, []))
      && (spec.Ok? ==> res == Ok(MapSeq(spec.value.rows, f.decode)) && userIdsLeft == spec.value.pool)
  {
    userIdsLeft := OrElse(ps.userIds, []);
    if !storeEnabled {
      return Ok([]), userIdsLeft;
    }
    var missing := MissingParam(kind, ps, userId);
    if missing.Some? {
      return Err(missing.value), userIdsLeft;
    }
    var q := PreparePaginationQuery(kind, ps, now, getTimestamp);
    var p := MakePlan(kind, ps, userId, q, queryLimit, maxPartitions, true);
    ghost var end := Scan(f, p, ScanState(q.until, 0, userIdsLeft, []));

    var until := q.until;
    var scanned := 0;
    var found: seq<E> := [];
    ghost var rows: seq<R> := [];
    var stop := false;
    while !stop && |found| < p.foundLimit && scanned < maxPartitions
      invariant found == MapSeq(rows, f.decode)
      invariant !stop ==> Scan(f, p, ScanState(until, scanned, userIdsLeft, rows)) == end
      invariant stop ==> ScanState(until, scanned, userIdsLeft, rows) == end
      decreases !stop, Max(0, maxPartitions) - scanned, |userIdsLeft|, CountBelow(f.table, f.stamp, until)
    {
      ghost var s := ScanState(until, scanned, userIdsLeft, rows);
      var kept;
      ghost var keptRows;
      stop, until, scanned, userIdsLeft, kept, keptRows := ScanRound(f, p, until, scanned, userIdsLeft, rows);
      StepProgress(f, p, s);
      MapAppend(rows, keptRows, f.decode);
      found := found + kept;
      rows := rows + keptRows;
    }
    return Ok(found), userIdsLeft;
  }

  /**
   * One iteration of the loop of `ExecPaginationQuery`: pop the list-feed
   * key, execute the statement, decode and filter the page, move the cursor.
   * `kept` is what the iteration pushes onto the result.
   */
  method ScanRound<R(!new), E(!new)>(f: Feed<R, E>, p: Plan, until: int, scanned: int, pool: seq<string>, ghost rows: seq<R>)
    returns (stop: bool, until': int, scanned': int, pool': seq<string>, kept: seq<E>, ghost keptRows: seq<R>)
    requires PlanOk(p) && Running(p, ScanState(until, scanned, pool, rows))
    ensures kept == MapSeq(keptRows, f.decode)
    ensures stop ==> Step(f, p, ScanState(until, scanned, pool, rows)) == Stop(ScanState(until', scanned', pool', rows + keptRows))
    ensures !stop ==> Step(f, p, ScanState(until, scanned, pool, rows)) == Again(ScanState(until', scanned', pool', rows + keptRows))
  {
    ghost var s := ScanState(until, scanned, pool, rows);
    until', scanned', pool', keptRows := until, scanned, pool, [];
    kept := [];
    var key := p.key;
    if p.kind == ListFeed {
      if |pool'| == 0 {
        return true, until', scanned', pool', kept, keptRows;
      }
      key := pool'[|pool'| - 1];
      pool' := pool'[..|pool'| - 1];
      if key == "" {
        return true, until', scanned', pool', kept, keptRows;
      }
    }
    var page := Page(f, p.statement, key, QueryCursor(p, until), p.since, p.fetchLimit);
    assert Step(f, p, s) == AfterPage(f, p, s, pool', page);
    stop, until', scanned', kept, keptRows := FinishRound(f, p, until, scanned, s, pool', page);
  }

  /** The rest of one iteration once the page came back: decode, filter, move the cursor. */
  method FinishRound<R(!new), E(!new)>(f: Feed<R, E>, p: Plan, until: int, scanned: int, ghost s: ScanState<R>,
                                       rest: seq<string>, page: seq<R>)
    returns (stop: bool, until': int, scanned': int, kept: seq<E>, ghost keptRows: seq<R>)
    requires PlanOk(p) && Running(p, s) && s.until == until && s.scanned == scanned
    ensures kept == MapSeq(keptRows, f.decode)
    ensures var t := ScanState(until', scanned', rest, s.rows + keptRows);
      AfterPage(f, p, s, rest, page) == (if stop then Stop(t) else Again(t))
  {
    kept := Filter(MapSeq(page, f.decode), f.keep);
    keptRows := Filter(page, Kept(f));
    FilterMap(page, f.decode, f.keep);
    until' := if |page| > 0 then f.stamp(page[|page| - 1]) else until;
    scanned' := scanned;
    stop := false;
    if |page| < p.fetchLimit {
      scanned' := scanned' + 1;
      until' := EndOfPreviousDay(until');
      if p.since.Some? && until' < p.since.value {
        stop := true;
      }
    }
  }
}

module PaginationProofs {
  import opened Common
  import opened Pagination

  /** The state a turn leaves, whether the loop stops there or goes on. */
  function After<R>(t: Turn<R>): ScanState<R> {
    match t
    case Stop(s) => s
    case Again(s) => s
  }

  /**
   * A row the call may return: a table row the caller's filter keeps,
   * older than the starting cursor, newer than the lower bound, and under
   * the kind's key (for the list feed, one of the pooled users).
   */
  predicate Eligible<R(==), E>(f: Feed<R, E>, p: Plan, users: seq<string>, r: R) {
    r in f.table && f.keep(f.decode(r)) && f.stamp(r) < p.start
    && (p.since.Some? ==> f.stamp(r) > p.since.value)
    && (Keyed(p.statement) ==> if p.kind == ListFeed then f.key(r) in users else f.key(r) == p.key)
  }

  predicate AllEligible<R(==), E>(f: Feed<R, E>, p: Plan, users: seq<string>, rows: seq<R>) {
    forall i :: 0 <= i < |rows| ==> Eligible(f, p, users, rows[i])
  }

  /** The second half of an iteration keeps what it had and adds only eligible rows of the page. */
  lemma AfterPageSound<R(!new), E>(f: Feed<R, E>, p: Plan, users: seq<string>, s: ScanState<R>,
                                   key: string, rest: seq<string>, page: seq<R>)
    requires PlanOk(p) && Running(p, s)
    requires s.until <= p.start && AllEligible(f, p, users, s.rows)
    requires Keyed(p.statement) ==> if p.kind == ListFeed then key in users else key == p.key
    requires forall i :: 0 <= i < |page| ==>
      page[i] in f.table && Matches(f, p.statement, key, QueryCursor(p, s.until), p.since, page[i])
    ensures var t := After(AfterPage(f, p, s, rest, page));
      s.rows <= t.rows && t.pool == rest && AllEligible(f, p, users, t.rows)
      && t.until <= p.start && s.scanned <= t.scanned <= s.scanned + 1
      && (p.kind != ListFeed ==> t.until <= s.until)
  {
    var kept := Filter(page, Kept(f));
    forall i | 0 <= i < |kept|
      ensures Eligible(f, p, users, kept[i])
    {
      assert kept[i] in kept;
      var j :| 0 <= j < |page| && page[j] == kept[i];
      assert Compose(f.decode, f.keep)(kept[i]);
    }
    var rows := s.rows + kept;
    forall i | 0 <= i < |rows|
      ensures Eligible(f, p, users, rows[i])
    {
      if i >= |s.rows| {
        assert rows[i] == kept[i - |s.rows|];
      }
    }
  }

  /** One iteration keeps what it had, pops at most one user, and adds only eligible rows. */
  lemma StepSound<R(!new), E>(f: Feed<R, E>, p: Plan, users: seq<string>, s: ScanState<R>)
    requires PlanOk(p) && Running(p, s)
    requires s.until <= p.start && s.pool <= users && AllEligible(f, p, users, s.rows)
    ensures var t := After(Step(f, p, s));
      s.rows <= t.rows && t.pool <= s.pool && AllEligible(f, p, users, t.rows)
      && t.until <= p.start && s.scanned <= t.scanned <= s.scanned + 1
      && (p.kind != ListFeed ==> t.until <= s.until)
  {
    if !(p.kind == ListFeed && (|s.pool| == 0 || s.pool[|s.pool| - 1] == "")) {
      var key := if p.kind == ListFeed then s.pool[|s.pool| - 1] else p.key;
      var rest := if p.kind == ListFeed then s.pool[..|s.pool| - 1] else s.pool;
      var from := QueryCursor(p, s.until);
      var page := Page(f, p.statement, key, from, p.since, p.fetchLimit);
      assert Step(f, p, s) == AfterPage(f, p, s, rest, page);
      PageMatches(f, p.statement, key, from, p.since, p.fetchLimit);
      if p.kind == ListFeed {
        assert s.pool[|s.pool| - 1] == users[|s.pool| - 1];
        assert rest <= s.pool;
      }
      AfterPageSound(f, p, users, s, key, rest, page);
    }
  }

  /**
   * The whole scan: the kept rows only grow, the pool only shrinks from the
   * end, every returned row is eligible, the cursor never passes the
   * starting cursor, and no more than `maxPartitions` short pages are
   * counted.
   */
  lemma {:induction false} ScanSound<R(!new), E>(f: Feed<R, E>, p: Plan, users: seq<string>, s: ScanState<R>)
    requires PlanOk(p)
    requires s.until <= p.start && s.pool <= users && AllEligible(f, p, users, s.rows)
    ensures var e := Scan(f, p, s);
      s.rows <= e.rows && e.pool <= s.pool && AllEligible(f, p, users, e.rows)
      && e.until <= p.start && s.scanned <= e.scanned <= Max(p.maxPartitions, s.scanned)
      && (p.kind != ListFeed ==> e.until <= s.until)
    decreases Max(0, p.maxPartitions) - s.scanned, |s.pool|, CountBelow(f.table, f.stamp, s.until)
  {
    if Running(p, s) {
      StepSound(f, p, users, s);
      StepProgress(f, p, s);
      match Step(f, p, s)
      case Stop(t) =>
      case Again(t) =>
        assert t.pool <= users;
        ScanSound(f, p, users, t);
    }
  }

  /** The second half of an iteration appends a sorted page older than everything kept so far. */
  lemma AfterPageSorted<R(!new), E>(f: Feed<R, E>, p: Plan, s: ScanState<R>, rest: seq<string>, page: seq<R>)
    requires PlanOk(p) && Running(p, s)
    requires SortedDesc(page, f.stamp) && SortedDesc(s.rows, f.stamp)
    requires forall i :: 0 <= i < |page| ==> f.stamp(page[i]) < s.until
    requires forall i :: 0 <= i < |s.rows| ==> f.stamp(s.rows[i]) >= s.until
    ensures var t := After(AfterPage(f, p, s, rest, page));
      SortedDesc(t.rows, f.stamp) && forall i :: 0 <= i < |t.rows| ==> f.stamp(t.rows[i]) >= t.until
  {
    FilterSorted(page, Kept(f), f.stamp);
    var kept := Filter(page, Kept(f));
    var last := if |page| > 0 then f.stamp(page[|page| - 1]) else s.until;
    forall j | 0 <= j < |kept|
      ensures last <= f.stamp(kept[j]) < s.until
    {
      assert kept[j] in kept;
      var k :| 0 <= k < |page| && page[k] == kept[j];
    }
    SortedAppend(s.rows, kept, f.stamp);
    var rows := s.rows + kept;
    forall i | 0 <= i < |rows|
      ensures f.stamp(rows[i]) >= last
    {
      if i >= |s.rows| {
        assert rows[i] == kept[i - |s.rows|];
      }
    }
  }

  /**
   * Outside the list feed, a sorted table gives a result sorted newest
   * first: each page is older than everything kept before it.
   */
  lemma StepSorted<R(!new), E>(f: Feed<R, E>, p: Plan, s: ScanState<R>)
    requires PlanOk(p) && Running(p, s) && p.kind != ListFeed
    requires SortedDesc(f.table, f.stamp) && SortedDesc(s.rows, f.stamp)
    requires forall i :: 0 <= i < |s.rows| ==> f.stamp(s.rows[i]) >= s.until
    ensures var t := After(Step(f, p, s));
      SortedDesc(t.rows, f.stamp) && forall i :: 0 <= i < |t.rows| ==> f.stamp(t.rows[i]) >= t.until
  {
    var page := Page(f, p.statement, p.key, s.until, p.since, p.fetchLimit);
    assert Step(f, p, s) == AfterPage(f, p, s, s.pool, page);
    PageSorted(f, p.statement, p.key, s.until, p.since, p.fetchLimit);
    AfterPageSorted(f, p, s, s.pool, page);
  }

  lemma {:induction false} ScanSorted<R(!new), E>(f: Feed<R, E>, p: Plan, s: ScanState<R>)
    requires PlanOk(p) && p.kind != ListFeed
    requires SortedDesc(f.table, f.stamp) && SortedDesc(s.rows, f.stamp)
    requires forall i :: 0 <= i < |s.rows| ==> f.stamp(s.rows[i]) >= s.until
    ensures SortedDesc(Scan(f, p, s).rows, f.stamp)
    decreases Max(0, p.maxPartitions) - s.scanned, |s.pool|, CountBelow(f.table, f.stamp, s.until)
  {
    if Running(p, s) {
      StepSorted(f, p, s);
      StepProgress(f, p, s);
      match Step(f, p, s)
      case Stop(t) =>
      case Again(t) =>
        ScanSorted(f, p, t);
    }
  }

  /**
   * `execPaginationQuery` returns only table rows passing the caller's
   * filter, strictly older than the resolved `until`, strictly newer than
   * the resolved `since`, under the feed's key; it counts at most
   * `maxPartitions` short pages; outside the list feed a table in
   * clustering order yields a result newest first.
   */
  lemma PaginateSound<R(!new), E>(f: Feed<R, E>, kind: FeedKind, ps: PageParams, userId: Option<string>,
                                  now: int, getTimestamp: string -> int, queryLimit: int, maxPartitions: int)
    requires queryLimit > 0
    ensures var r := Paginate(f, kind, ps, userId, now, getTimestamp, true, queryLimit, maxPartitions);
      var until := ResolveUntil(ps, now, getTimestamp);
      var since := ResolveSince(ps, getTimestamp);
      r.Ok? ==>
        (forall i :: 0 <= i < |r.value.rows| ==>
          var row := r.value.rows[i];
          row in f.table && f.keep(f.decode(row)) && f.stamp(row) < until
          && (since.Some? ==> f.stamp(row) > since.value)
          && (kind == ListFeed ==> f.key(row) in ps.userIds.value)
          && (kind != ListFeed && Keyed(StatementFor(kind)) ==> f.key(row) == KeyValue(kind, ps, userId)))
        && r.value.scanned <= Max(maxPartitions, 0)
        && r.value.pool <= OrElse(ps.userIds, [])
        && (kind != ListFeed && SortedDesc(f.table, f.stamp) ==> SortedDesc(r.value.rows, f.stamp))
  {
    if MissingParam(kind, ps, userId).None? {
      var q := PreparePaginationQuery(kind, ps, now, getTimestamp);
      var p := MakePlan(kind, ps, userId, q, queryLimit, maxPartitions, true);
      var users := OrElse(ps.userIds, []);
      var s := ScanState(q.until, 0, users, []);
      ScanSound(f, p, users, s);
      if kind != ListFeed && SortedDesc(f.table, f.stamp) {
        ScanSorted(f, p, s);
      }
    }
  }

  /** The part of `PaginateSound` the endpoints use: every row is kept, and outside the list feed it is under the feed's key. */
  lemma PaginateKept<R(!new), E>(f: Feed<R, E>, kind: FeedKind, ps: PageParams, userId: Option<string>,
                                 now: int, getTimestamp: string -> int, queryLimit: int, maxPartitions: int)
    requires queryLimit > 0
    ensures var r := Paginate(f, kind, ps, userId, now, getTimestamp, true, queryLimit, maxPartitions);
      r.Ok? ==> forall i :: 0 <= i < |r.value.rows| ==>
        f.keep(f.decode(r.value.rows[i]))
        && (kind != ListFeed && Keyed(StatementFor(kind)) ==> f.key(r.value.rows[i]) == KeyValue(kind, ps, userId))
  {
    PaginateSound(f, kind, ps, userId, now, getTimestamp, queryLimit, maxPartitions);
  }

  /** The part of `PaginateSound` the refetch loops use: every row is a table row older than the resolved cursor. */
  lemma PaginateWithin<R(!new), E>(f: Feed<R, E>, kind: FeedKind, ps: PageParams, userId: Option<string>,
                                   now: int, getTimestamp: string -> int, queryLimit: int, maxPartitions: int)
    requires queryLimit > 0
    ensures var r := Paginate(f, kind, ps, userId, now, getTimestamp, true, queryLimit, maxPartitions);
      r.Ok? ==> forall i :: 0 <= i < |r.value.rows| ==>
        r.value.rows[i] in f.table && f.stamp(r.value.rows[i]) < ResolveUntil(ps, now, getTimestamp)
  {
    PaginateSound(f, kind, ps, userId, now, getTimestamp, queryLimit, maxPartitions);
  }

  // ---------------------------------------------------------------------
  // The list feed's cursor carries over from one user to the next

  /** Rows of user `r.0` posted at `r.1`; every row passes the filter. */
  function TwoUserFeed(): Feed<(string, int), (string, int)> {
    Feed([("A", 200), ("B", 100)], (r: (string, int)) => r.1, (r: (string, int)) => r.0, r => r, e => true)
  }

  function TwoUserParams(): PageParams {
    PageParams(1, None, None, None, None, None, None, Some(["A", "B"]))
  }

  /** The plan of the two-user call; `reset` selects the corrected per-user cursor. */
  function TwoUserPlan(reset: bool): (p: Plan)
    ensures PlanOk(p) && p.kind == ListFeed && p.statement == NoteByUserId && p.resetPerUser == reset
    ensures p.start == 1000 && p.since == None && p.fetchLimit == 1 && p.foundLimit == 2
  {
    var q := PreparePaginationQuery(ListFeed, TwoUserParams(), 1000, id => 0);
    MakePlan(ListFeed, TwoUserParams(), Some("me"), q, 1000, 14, reset)
  }

  /** The whole call is the scan of the two-user plan from the upper bound 1000. */
  lemma TwoUserCall(reset: bool)
    ensures var r := if reset then Paginate(TwoUserFeed(), ListFeed, TwoUserParams(), Some("me"), 1000, id => 0, true, 1000, 14)
                     else PaginateAsWritten(TwoUserFeed(), ListFeed, TwoUserParams(), Some("me"), 1000, id => 0, true, 1000, 14);
      r == Ok(Scan(TwoUserFeed(), TwoUserPlan(reset), ScanState(1000, 0, ["A", "B"], [])))
  {
  }

  /** "B" is popped first either way; its one note moves the cursor to 100. */
  lemma TwoUserFirstStep(reset: bool)
    ensures Step(TwoUserFeed(), TwoUserPlan(reset), ScanState(1000, 0, ["A", "B"], []))
         == Again(ScanState(100, 0, ["A"], [("B", 100)]))
  {
    var f := TwoUserFeed();
    assert Filter(f.table, MatchPred(f, NoteByUserId, "B", 1000, None)) == [("B", 100)];
  }

  /** As written, "A" is asked for notes before 100, finds none and the empty pool stops the loop. */
  lemma TwoUserAsWrittenRest()
    ensures Scan(TwoUserFeed(), TwoUserPlan(false), ScanState(100, 0, ["A"], [("B", 100)])).rows == [("B", 100)]
  {
    var f := TwoUserFeed();
    var p := TwoUserPlan(false);
    assert Filter(f.table, MatchPred(f, NoteByUserId, "A", 100, None)) == [];
    var s2 := ScanState(EndOfPreviousDay(100), 1, [], [("B", 100)]);
    assert Step(f, p, ScanState(100, 0, ["A"], [("B", 100)])) == Again(s2);
    assert Step(f, p, s2) == Stop(s2);
  }

  /** Reset to the upper bound, "A" returns its note at 200 and the result is full. */
  lemma TwoUserResetRest()
    ensures Scan(TwoUserFeed(), TwoUserPlan(true), ScanState(100, 0, ["A"], [("B", 100)])).rows == [("B", 100), ("A", 200)]
  {
    var f := TwoUserFeed();
    var p := TwoUserPlan(true);
    assert Filter(f.table, MatchPred(f, NoteByUserId, "A", 1000, None)) == [("A", 200)];
    var s2 := ScanState(200, 0, [], [("B", 100), ("A", 200)]);
    assert Step(f, p, ScanState(100, 0, ["A"], [("B", 100)])) == Again(s2);
  }

  /**
   * One note per followed user and `limit` 1: as written, "B" is popped and
   * its note at 100 moves the cursor to 100, so "A" is asked only for notes
   * before 100 and its note at 200, newer than B's and older than the upper
   * bound, is never returned. Querying every user from the upper bound
   * returns both.
   */
  lemma ListCursorCarriesOver()
    ensures var r := PaginateAsWritten(TwoUserFeed(), ListFeed, TwoUserParams(), Some("me"), 1000, id => 0, true, 1000, 14);
      r.Ok? && r.value.rows == [("B", 100)]
    ensures var r := Paginate(TwoUserFeed(), ListFeed, TwoUserParams(), Some("me"), 1000, id => 0, true, 1000, 14);
      r.Ok? && r.value.rows == [("B", 100), ("A", 200)]
  {
    var s0 := ScanState(1000, 0, ["A", "B"], []);
    var s1 := ScanState(100, 0, ["A"], [("B", 100)]);
    assert Scan(TwoUserFeed(), TwoUserPlan(false), s0).rows == [("B", 100)] by {
      TwoUserFirstStep(false);
      ScanUnfold(TwoUserFeed(), TwoUserPlan(false), s0);
      TwoUserAsWrittenRest();
    }
    assert Scan(TwoUserFeed(), TwoUserPlan(true), s0).rows == [("B", 100), ("A", 200)] by {
      TwoUserFirstStep(true);
      ScanUnfold(TwoUserFeed(), TwoUserPlan(true), s0);
      TwoUserResetRest();
    }
    TwoUserCall(false);
    TwoUserCall(true);
  }

  /** What the list feed keeps of user `u`: its newest page from the upper bound; an empty id stops the loop instead. */
  function UserRows<R(!new), E>(f: Feed<R, E>, p: Plan): string -> seq<R> {
    u => if u == "" then [] else Filter(Page(f, p.statement, u, p.start, p.since, p.fetchLimit), Kept(f))
  }

  /** The pages of `users` popped from the end, in the order they are popped. */
  function ListRows<R>(pages: string -> seq<R>, users: seq<string>): seq<R>
    decreases |users|
  {
    if |users| == 0 then [] else pages(users[|users| - 1]) + ListRows(pages, users[..|users| - 1])
  }

  /** One list-feed iteration with the per-user reset pops one user and appends exactly its page. */
  lemma ListStep<R(!new), E>(f: Feed<R, E>, p: Plan, s: ScanState<R>)
    requires PlanOk(p) && p.kind == ListFeed && p.resetPerUser && Running(p, s) && |s.pool| > 0
    ensures var t := After(Step(f, p, s));
      t.pool == s.pool[..|s.pool| - 1] && t.rows == s.rows + UserRows(f, p)(s.pool[|s.pool| - 1])
    ensures s.pool[|s.pool| - 1] == "" ==> Step(f, p, s).Stop?
  {
    var key := s.pool[|s.pool| - 1];
    if key != "" {
      var page := Page(f, p.statement, key, p.start, p.since, p.fetchLimit);
      assert Step(f, p, s) == AfterPage(f, p, s, s.pool[..|s.pool| - 1], page);
    }
  }

  /** `Scan` takes one step: it ends where the step stops or where the scan from the next state ends. */
  lemma ScanUnfold<R(!new), E>(f: Feed<R, E>, p: Plan, s: ScanState<R>)
    requires PlanOk(p) && Running(p, s)
    ensures Step(f, p, s).Stop? ==> Scan(f, p, s) == Step(f, p, s).last
    ensures Step(f, p, s).Again? ==> Progress(f, s, Step(f, p, s).next) && Scan(f, p, s) == Scan(f, p, Step(f, p, s).next)
  {
    StepProgress(f, p, s);
  }

  /** Rows kept by one pop followed by the rest of the scan are the pages of everything popped. */
  lemma ListRowsCombine<R>(pages: string -> seq<R>, pool: seq<string>, k: nat, before: seq<R>, mid: seq<R>, after: seq<R>)
    requires k < |pool|
    requires mid == before + pages(pool[|pool| - 1])
    requires after == mid + ListRows(pages, pool[..|pool| - 1][k..])
    ensures after == before + ListRows(pages, pool[k..])
  {
    var popped := pool[..|pool| - 1][k..];
    assert pool[k..] == popped + [pool[|pool| - 1]];
    assert (popped + [pool[|pool| - 1]])[..|popped|] == popped;
  }

  /** What `ListScanComplete` states about the scan from `s`. */
  ghost predicate ListScanDone<R(!new), E>(f: Feed<R, E>, p: Plan, s: ScanState<R>)
    requires PlanOk(p)
  {
    var e := Scan(f, p, s);
    e.pool <= s.pool && e.rows == s.rows + ListRows(UserRows(f, p), s.pool[|e.pool|..])
  }

  /**
   * The sequence algebra of one pop for any page function: `turn` popped
   * the last user of `pool` and appended its page, and `e` is where the
   * scan ends after it.
   */
  lemma ListTurnCombine<R>(pages: string -> seq<R>, pool: seq<string>, rows: seq<R>, turn: Turn<R>, e: ScanState<R>)
    requires |pool| > 0
    requires After(turn).pool == pool[..|pool| - 1] && After(turn).rows == rows + pages(pool[|pool| - 1])
    requires turn.Stop? ==> e == turn.last
    requires turn.Again? ==> e.pool <= turn.next.pool && e.rows == turn.next.rows + ListRows(pages, turn.next.pool[|e.pool|..])
    ensures e.pool <= pool && e.rows == rows + ListRows(pages, pool[|e.pool|..])
  {
    var t := After(turn);
    if turn.Stop? {
      assert t.pool[|e.pool|..] == [];
    }
    ListRowsCombine(pages, pool, |e.pool|, rows, t.rows, e.rows);
  }

  /** The inductive step of `ListScanComplete`: one pop, then the scan from the next state. */
  lemma ListScanPop<R(!new), E>(f: Feed<R, E>, p: Plan, s: ScanState<R>)
    requires PlanOk(p) && p.kind == ListFeed && p.resetPerUser && Running(p, s) && |s.pool| > 0
    requires Step(f, p, s).Again? ==> ListScanDone(f, p, Step(f, p, s).next)
    ensures ListScanDone(f, p, s)
  {
    ListStep(f, p, s);
    ScanUnfold(f, p, s);
    ListTurnCombine(UserRows(f, p), s.pool, s.rows, Step(f, p, s), Scan(f, p, s));
  }

  /**
   * With each user queried from the upper bound, the list feed leaves a
   * prefix of the pool and has kept exactly the pages of the users it
   * popped, newest-popped first.
   */
  lemma {:induction false} ListScanComplete<R(!new), E>(f: Feed<R, E>, p: Plan, s: ScanState<R>)
    requires PlanOk(p) && p.kind == ListFeed && p.resetPerUser
    ensures var e := Scan(f, p, s);
      e.pool <= s.pool && e.rows == s.rows + ListRows(UserRows(f, p), s.pool[|e.pool|..])
    decreases Max(0, p.maxPartitions) - s.scanned, |s.pool|, CountBelow(f.table, f.stamp, s.until)
  {
    if !Running(p, s) || |s.pool| == 0 {
      assert s.pool[|Scan(f, p, s).pool|..] == [];
    } else {
      if Step(f, p, s).Again? {
        StepProgress(f, p, s);
        ListScanComplete(f, p, Step(f, p, s).next);
      }
      ListScanPop(f, p, s);
    }
  }

  /** `ListScanComplete` for the whole call: the pages of the users popped off `userIds`. */
  lemma PaginateListComplete<R(!new), E>(f: Feed<R, E>, ps: PageParams, userId: Option<string>,
                                         now: int, getTimestamp: string -> int, queryLimit: int, maxPartitions: int)
    requires queryLimit > 0
    ensures var r := Paginate(f, ListFeed, ps, userId, now, getTimestamp, true, queryLimit, maxPartitions);
      var q := PreparePaginationQuery(ListFeed, ps, now, getTimestamp);
      var p := MakePlan(ListFeed, ps, userId, q, queryLimit, maxPartitions, true);
      r.Ok? ==>
        ps.userIds.Some? && r.value.pool <= ps.userIds.value
        && r.value.rows == ListRows(UserRows(f, p), ps.userIds.value[|r.value.pool|..])
  {
    if MissingParam(ListFeed, ps, userId).None? {
      var q := PreparePaginationQuery(ListFeed, ps, now, getTimestamp);
      var p := MakePlan(ListFeed, ps, userId, q, queryLimit, maxPartitions, true);
      ListScanComplete(f, p, ScanState(q.until, 0, ps.userIds.value, []));
    }
  }

  // ---------------------------------------------------------------------
  // A closure that throws

  /** The feed `f` under a closure that keeps every row. */
  function KeepAll<R, E>(f: Feed<R, E>): Feed<R, E> {
    Feed(f.table, f.stamp, f.key, f.decode, (e: E) => true)
  }

  /** A page does not depend on the caller's closure. */
  lemma PageIgnoresKeep<R(!new), E>(f: Feed<R, E>, g: Feed<R, E>, st: Statement, key: string, until: int, since: Option<int>, n: int)
    requires f.table == g.table && f.stamp == g.stamp && f.key == g.key
    ensures Page(f, st, key, until, since, n) == Page(g, st, key, until, since, n)
  {
    FilterExt(f.table, MatchPred(f, st, key, until, since), MatchPred(g, st, key, until, since));
  }

  /** The kept rows only grow. */
  lemma {:induction false} ScanGrows<R(!new), E>(f: Feed<R, E>, p: Plan, s: ScanState<R>)
    requires PlanOk(p)
    ensures s.rows <= Scan(f, p, s).rows
    decreases Max(0, p.maxPartitions) - s.scanned, |s.pool|, CountBelow(f.table, f.stamp, s.until)
  {
    if Running(p, s) {
      var t := After(Step(f, p, s));
      assert s.rows <= t.rows;
      if Step(f, p, s).Again? {
        StepProgress(f, p, s);
        ScanGrows(f, p, t);
      }
    }
  }

  /** An iteration fetches the same page whatever the closure. */
  lemma StepPageIgnoresKeep<R(!new), E>(f: Feed<R, E>, p: Plan, s: ScanState<R>)
    ensures StepPage(KeepAll(f), p, s) == StepPage(f, p, s)
  {
    if !(p.kind == ListFeed && (|s.pool| == 0 || s.pool[|s.pool| - 1] == "")) {
      var key := if p.kind == ListFeed then s.pool[|s.pool| - 1] else p.key;
      PageIgnoresKeep(f, KeepAll(f), p.statement, key, QueryCursor(p, s.until), p.since, p.fetchLimit);
    }
  }

  /** An iteration whose page is empty does not depend on the closure. */
  lemma EmptyPageStep<R(!new), E>(f: Feed<R, E>, p: Plan, s: ScanState<R>)
    requires PlanOk(p) && Running(p, s) && StepPage(f, p, s) == []
    ensures Step(f, p, s) == Step(KeepAll(f), p, s)
  {
    var g := KeepAll(f);
    if !(p.kind == ListFeed && (|s.pool| == 0 || s.pool[|s.pool| - 1] == "")) {
      var key := if p.kind == ListFeed then s.pool[|s.pool| - 1] else p.key;
      var rest := if p.kind == ListFeed then s.pool[..|s.pool| - 1] else s.pool;
      PageIgnoresKeep(f, g, p.statement, key, QueryCursor(p, s.until), p.since, p.fetchLimit);
      assert Step(f, p, s) == AfterPage(f, p, s, rest, []);
      assert Step(g, p, s) == AfterPage(g, p, s, rest, []);
    }
  }

  /** Keeping every row, a walk whose next page has rows returns rows. */
  lemma FullPageFinds<R(!new), E>(f: Feed<R, E>, p: Plan, s: ScanState<R>)
    requires PlanOk(p) && Running(p, s) && |StepPage(KeepAll(f), p, s)| > 0
    ensures Scan(KeepAll(f), p, s).rows != []
  {
    var g := KeepAll(f);
    var page := StepPage(g, p, s);
    var key := if p.kind == ListFeed then s.pool[|s.pool| - 1] else p.key;
    var rest := if p.kind == ListFeed then s.pool[..|s.pool| - 1] else s.pool;
    assert Step(g, p, s) == AfterPage(g, p, s, rest, page);
    FilterAll(page, Kept(g));
    var t := After(Step(g, p, s));
    assert t.rows == s.rows + page;
    if Step(g, p, s).Again? {
      StepProgress(g, p, s);
      ScanGrows(g, p, t);
    }
  }

  /**
   * Under a closure that always throws `msg`, the walk from a state with
   * nothing kept fails with `msg` exactly when the same walk keeping every
   * row finds one; otherwise it ends where that walk ends, with nothing
   * kept.
   */
  lemma {:induction false} ScanThrowingMeetsRow<R(!new), E(!new)>(f: Feed<R, E>, close: seq<E> -> Result<seq<E>>, msg: string,
                                                                 p: Plan, s: ScanState<R>)
    requires PlanOk(p) && s.rows == []
    requires forall batch :: close(batch) == Err(msg)
    ensures var r := ScanThrowing(f, close, p, s);
      (r.Err? <==> Scan(KeepAll(f), p, s).rows != [])
      && (r.Err? ==> r.msg == msg)
      && (r.Ok? ==> r.value == Scan(KeepAll(f), p, s) && r.value.rows == [])
    decreases Max(0, p.maxPartitions) - s.scanned, |s.pool|, CountBelow(f.table, f.stamp, s.until)
  {
    if Running(p, s) {
      StepPageIgnoresKeep(f, p, s);
      if |StepPage(f, p, s)| > 0 {
        FullPageFinds(f, p, s);
      } else {
        EmptyPageStep(f, p, s);
        var turn := Step(f, p, s);
        if turn.Again? {
          StepProgress(f, p, s);
          ScanThrowingMeetsRow(f, close, msg, p, turn.next);
        }
      }
    }
  }

  /**
   * `execPaginationQuery` as written, under a closure that always throws
   * `msg`: it fails as `PaginateAsWritten` does before querying, and
   * otherwise with `msg` exactly when the same call keeping every row
   * would return one; when it does not fail it returns nothing.
   */
  lemma PaginateThrowingMeetsRow<R(!new), E(!new)>(f: Feed<R, E>, close: seq<E> -> Result<seq<E>>, msg: string, kind: FeedKind,
                                            ps: PageParams, userId: Option<string>, now: int, getTimestamp: string -> int,
                                            storeEnabled: bool, queryLimit: int, maxPartitions: int)
    requires queryLimit > 0
    requires forall batch :: close(batch) == Err(msg)
    ensures var r := PaginateThrowing(f, close, kind, ps, userId, now, getTimestamp, storeEnabled, queryLimit, maxPartitions);
      var probe := PaginateAsWritten(KeepAll(f), kind, ps, userId, now, getTimestamp, storeEnabled, queryLimit, maxPartitions);
      (probe.Err? ==> r == probe)
      && (probe.Ok? ==> (r.Err? <==> probe.value.rows != []) && (r.Err? ==> r.msg == msg))
      && (r.Ok? ==> r.value.rows == [])
  {
    if storeEnabled && MissingParam(kind, ps, userId).None? {
      var q := PreparePaginationQuery(kind, ps, now, getTimestamp);
      var p := MakePlan(kind, ps, userId, q, queryLimit, maxPartitions, false);
      ScanThrowingMeetsRow(f, close, msg, p, ScanState(q.until, 0, OrElse(ps.userIds, []), []));
    }
  }
}

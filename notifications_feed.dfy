/**
 * The store path of the `i/notifications` endpoint
 * (`server/api/endpoints/i/notifications.ts`): the checks that answer `[]`
 * without querying, the `filter` closure run on every fetched batch, and the
 * partition scan over the `notification` table with at most 30 partitions,
 * cut to `limit`.
 */
module NotificationFeed {
  import opened Common
  import opened ScyllaRows
  import opened Pagination
  import opened PaginationProofs

  /** The request parameters the store path reads. */
  datatype NotifParams = NotifParams(
    page: PageParams,
    following: bool,
    unreadOnly: bool,
    directOnly: bool,
    includeTypes: Option<seq<NotificationType>>,
    excludeTypes: Option<seq<NotificationType>>)

  /** The viewer's lists as the caches return them. */
  datatype Relations = Relations(
    followingUserIds: seq<string>,
    mutedUserIds: seq<string>,
    mutedInstances: seq<string>,
    blockerIds: seq<string>,
    blockingIds: seq<string>)

  /** Every notification type, as `notificationTypes` enumerates them. */
  const AllTypes: seq<NotificationType> :=
    [Follow, Mention, Reply, Renote, Quote, Reaction, PollVote, PollEnded,
     ReceiveFollowRequest, FollowRequestAccepted, GroupInvited, App]

  /** The partition budget the endpoint passes to the scan. */
  const NotificationPartitions: int := 30

  lemma AllTypesListed(t: NotificationType)
    ensures t in AllTypes
  {
  }

  /** `ps.excludeTypes?.includes(type)` */
  predicate Excluded(ps: NotifParams, t: NotificationType) {
    ps.excludeTypes.Some? && t in ps.excludeTypes.value
  }

  /** An empty `includeTypes`, or an `excludeTypes` listing every type: the endpoint answers `[]` without a query. */
  predicate SkipsQuery(ps: NotifParams) {
    (ps.includeTypes.Some? && |ps.includeTypes.value| == 0)
    || (forall i :: 0 <= i < |AllTypes| ==> Excluded(ps, AllTypes[i]))
  }

  /** Listing every type in `excludeTypes` is the same as excluding each type there is. */
  lemma SkipsOnFullExclusion(ps: NotifParams)
    ensures (forall t :: Excluded(ps, t)) ==> SkipsQuery(ps)
    ensures (ps.includeTypes.None? || |ps.includeTypes.value| > 0) && SkipsQuery(ps) ==> forall t :: Excluded(ps, t)
  {
    if (ps.includeTypes.None? || |ps.includeTypes.value| > 0) && SkipsQuery(ps) {
      forall t ensures Excluded(ps, t) {
        AllTypesListed(t);
        var i :| 0 <= i < |AllTypes| && AllTypes[i] == t;
      }
    }
  }

  predicate IncludeGiven(ps: NotifParams) {
    ps.includeTypes.Some? && |ps.includeTypes.value| > 0
  }

  predicate ExcludeGiven(ps: NotifParams) {
    ps.excludeTypes.Some? && |ps.excludeTypes.value| > 0
  }

  /** `ps.directOnly && ps.includeTypes?.every((t) => ["mention", "reply"].includes(t))` */
  predicate DirectApplies(ps: NotifParams) {
    ps.directOnly && ps.includeTypes.Some?
    && forall i :: 0 <= i < |ps.includeTypes.value| ==> ps.includeTypes.value[i] in {Mention, Reply}
  }

  // ---------------------------------------------------------------------
  // The steps of the closure

  /** `n.notifierId && validUserIds.includes(n.notifierId)` with `validUserIds = [me, ...followings]` */
  predicate FromFollowed(n: Notification, me: string, rel: Relations) {
    Truthy(n.notifierId) && n.notifierId.value in [me] + rel.followingUserIds
  }

  /** The kept type: listed in a non-empty `includeTypes`, else not listed in a non-empty `excludeTypes`. */
  predicate TypeWanted(n: Notification, ps: NotifParams) {
    if IncludeGiven(ps) then n.notificationType in ps.includeTypes.value
    else if ExcludeGiven(ps) then n.notificationType !in ps.excludeTypes.value
    else true
  }

  predicate HostMuted(n: Notification, rel: Relations) {
    Truthy(n.notifierHost) && n.notifierHost.value in rel.mutedInstances
  }

  /** A notifier the viewer mutes, blocks or is blocked by. */
  predicate NotifierShunned(n: Notification, rel: Relations) {
    Truthy(n.notifierId)
    && (n.notifierId.value in rel.mutedUserIds || n.notifierId.value in rel.blockingIds || n.notifierId.value in rel.blockerIds)
  }

  predicate HasEntity(n: Notification) {
    Truthy(n.entityId)
  }

  predicate IsSpecified(m: Note) {
    m.visibility == Specified
  }

  function NoteId(m: Note): string {
    m.id
  }

  /** `notes.filter((n) => n.visibility === "specified").map(({ id }) => id)` over the rows `byIds` returns for `ids`. */
  function SpecifiedIds(notes: seq<Note>, ids: seq<string>): (r: seq<string>)
    ensures forall x :: x in r <==> exists m :: m in notes && m.id in ids && IsSpecified(m) && m.id == x
  {
    var fetched := Filter(Filter(notes, (m: Note) => m.id in ids), IsSpecified);
    forall x ensures x in MapSeq(fetched, NoteId) <==> exists m :: m in fetched && NoteId(m) == x {
      MapSeqMembers(fetched, NoteId, x);
    }
    MapSeq(fetched, NoteId)
  }

  /** The notification's entity is a specified-visibility note of the store. */
  predicate DirectEntity(n: Notification, notes: seq<Note>) {
    Truthy(n.entityId) && exists m :: m in notes && m.id == n.entityId.value && IsSpecified(m)
  }

  function EntityOf(n: Notification): string {
    OrElse(n.entityId, "")
  }

  /**
   * The `filter` closure on one fetched batch, step by step as the source
   * reassigns `filtered`; `notes` is the `note` table the `byIds` lookup
   * reads.
   */
  function NotificationFilter(batch: seq<Notification>, ps: NotifParams, me: string, rel: Relations, notes: seq<Note>): seq<Notification> {
    var f4 := PlainSteps(batch, ps, me, rel);
    if DirectApplies(ps) then DirectStep(f4, notes) else f4
  }

  function FollowedPred(me: string, rel: Relations): Notification -> bool {
    (n: Notification) => FromFollowed(n, me, rel)
  }

  /** `ps.includeTypes?.includes(n.type)` */
  function IncludePred(ps: NotifParams): Notification -> bool {
    (n: Notification) => ps.includeTypes.Some? && n.notificationType in ps.includeTypes.value
  }

  /** `ps.excludeTypes && !ps.excludeTypes.includes(n.type)` */
  function ExcludePred(ps: NotifParams): Notification -> bool {
    (n: Notification) => ps.excludeTypes.Some? && n.notificationType !in ps.excludeTypes.value
  }

  function HostPred(rel: Relations): Notification -> bool {
    (n: Notification) => !HostMuted(n, rel)
  }

  function ShunPred(rel: Relations): Notification -> bool {
    (n: Notification) => !NotifierShunned(n, rel)
  }

  /** `entityId && validNoteIds.includes(entityId)` */
  function ValidPred(valid: seq<string>): Notification -> bool {
    (n: Notification) => Truthy(n.entityId) && n.entityId.value in valid
  }

  /** The steps before `directOnly`. */
  function PlainSteps(batch: seq<Notification>, ps: NotifParams, me: string, rel: Relations): seq<Notification> {
    var f0 := if ps.unreadOnly then [] else batch;
    var f1 := if ps.following then Filter(f0, FollowedPred(me, rel)) else f0;
    var f2 :=
      if IncludeGiven(ps) then Filter(f1, IncludePred(ps))
      else if ExcludeGiven(ps) then Filter(f1, ExcludePred(ps))
      else f1;
    var f3 := Filter(f2, HostPred(rel));
    Filter(f3, ShunPred(rel))
  }

  /** The `directOnly` step: keep the notifications whose entity `byIds` finds among the specified notes. */
  function DirectStep(filtered: seq<Notification>, notes: seq<Note>): seq<Notification> {
    var withEntity := Filter(filtered, HasEntity);
    var valid := SpecifiedIds(notes, MapSeq(withEntity, EntityOf));
    Filter(withEntity, ValidPred(valid))
  }

  /** Whether one notification survives the closure, as a single condition. */
  predicate Keep(n: Notification, ps: NotifParams, me: string, rel: Relations, notes: seq<Note>) {
    Plain(n, ps, me, rel) && (DirectApplies(ps) ==> DirectEntity(n, notes))
  }

  function KeepPred(ps: NotifParams, me: string, rel: Relations, notes: seq<Note>): Notification -> bool {
    (n: Notification) => Keep(n, ps, me, rel, notes)
  }

  /** The conditions of the steps before `directOnly`. */
  predicate Plain(n: Notification, ps: NotifParams, me: string, rel: Relations) {
    !ps.unreadOnly && (ps.following ==> FromFollowed(n, me, rel)) && TypeWanted(n, ps)
    && !HostMuted(n, rel) && !NotifierShunned(n, rel)
  }

  function PlainPred(ps: NotifParams, me: string, rel: Relations): Notification -> bool {
    (n: Notification) => Plain(n, ps, me, rel)
  }

  function TypePred(ps: NotifParams): Notification -> bool {
    (n: Notification) => TypeWanted(n, ps)
  }

  /** The type step keeps what `TypeWanted` accepts. */
  lemma TypeStepFilter(f1: seq<Notification>, ps: NotifParams)
    ensures (if IncludeGiven(ps) then Filter(f1, IncludePred(ps))
             else if ExcludeGiven(ps) then Filter(f1, ExcludePred(ps))
             else f1) == Filter(f1, TypePred(ps))
  {
    if IncludeGiven(ps) {
      FilterExt(f1, IncludePred(ps), TypePred(ps));
    } else if ExcludeGiven(ps) {
      FilterExt(f1, ExcludePred(ps), TypePred(ps));
    } else {
      FilterAll(f1, TypePred(ps));
    }
  }

  /** The first five steps of the closure keep what the first five conditions accept. */
  lemma PlainStepsFilter(batch: seq<Notification>, ps: NotifParams, me: string, rel: Relations)
    ensures PlainSteps(batch, ps, me, rel) == Filter(batch, PlainPred(ps, me, rel))
  {
    if ps.unreadOnly {
      FilterNone(batch, PlainPred(ps, me, rel));
    } else {
      var w := When(ps.following, FollowedPred(me, rel));
      FilterWhen(ps.following, batch, FollowedPred(me, rel));
      var f1 := Filter(batch, w);
      TypeStepFilter(f1, ps);
      FilterBoth(batch, w, TypePred(ps));
      FilterBoth(batch, Both(w, TypePred(ps)), HostPred(rel));
      FilterBoth(batch, Both(Both(w, TypePred(ps)), HostPred(rel)), ShunPred(rel));
      var steps := Both(Both(Both(w, TypePred(ps)), HostPred(rel)), ShunPred(rel));
      forall i | 0 <= i < |batch|
        ensures steps(batch[i]) == PlainPred(ps, me, rel)(batch[i])
      {
        PlainPointwise(batch[i], ps, me, rel);
      }
      FilterExt(batch, steps, PlainPred(ps, me, rel));
    }
  }

  /** The step predicates together are `Plain`, for a request that is not `unreadOnly`. */
  lemma PlainPointwise(n: Notification, ps: NotifParams, me: string, rel: Relations)
    requires !ps.unreadOnly
    ensures Both(Both(Both(When(ps.following, FollowedPred(me, rel)), TypePred(ps)), HostPred(rel)), ShunPred(rel))(n)
         == PlainPred(ps, me, rel)(n)
  {
  }

  function DirectPred(notes: seq<Note>): Notification -> bool {
    (n: Notification) => DirectEntity(n, notes)
  }

  /**
   * The `byIds` lookup accepts exactly the notifications whose entity is a
   * specified note, whatever else the batch holds.
   */
  lemma DirectStepFilter(filtered: seq<Notification>, notes: seq<Note>)
    ensures DirectStep(filtered, notes) == Filter(filtered, Both(HasEntity, DirectPred(notes)))
  {
    var withEntity := Filter(filtered, HasEntity);
    var ids := MapSeq(withEntity, EntityOf);
    var valid := SpecifiedIds(notes, ids);
    forall i | 0 <= i < |withEntity|
      ensures ValidPred(valid)(withEntity[i]) == DirectPred(notes)(withEntity[i])
    {
      assert ids[i] == withEntity[i].entityId.value;
    }
    FilterExt(withEntity, ValidPred(valid), DirectPred(notes));
    FilterBoth(filtered, HasEntity, DirectPred(notes));
  }

  /** The closure on any batch is the filter by `Keep`. */
  lemma NotificationFilterIsKeep(batch: seq<Notification>, ps: NotifParams, me: string, rel: Relations, notes: seq<Note>)
    ensures NotificationFilter(batch, ps, me, rel, notes) == Filter(batch, KeepPred(ps, me, rel, notes))
  {
    PlainStepsFilter(batch, ps, me, rel);
    if DirectApplies(ps) {
      DirectStepFilter(Filter(batch, PlainPred(ps, me, rel)), notes);
      FilterBoth(batch, PlainPred(ps, me, rel), Both(HasEntity, DirectPred(notes)));
      FilterExt(batch, Both(PlainPred(ps, me, rel), Both(HasEntity, DirectPred(notes))), KeepPred(ps, me, rel, notes));
    } else {
      FilterExt(batch, PlainPred(ps, me, rel), KeepPred(ps, me, rel, notes));
    }
  }

  // ---------------------------------------------------------------------
  // Properties of the closure

  /** `unreadOnly` leaves nothing: read state is not tracked on the store path. */
  lemma UnreadOnlyEmpty(batch: seq<Notification>, ps: NotifParams, me: string, rel: Relations, notes: seq<Note>)
    requires ps.unreadOnly
    ensures NotificationFilter(batch, ps, me, rel, notes) == []
  {
    PlainStepsFilter(batch, ps, me, rel);
  }

  /**
   * What survives: an order-preserving subsequence of the batch, from the
   * viewer or a followed user when `following` is set (never without a
   * notifier), of a wanted type, from neither a muted host nor a muted,
   * blocking or blocked notifier, and under `directOnly` about a specified
   * note.
   */
  lemma NotificationFilterSound(batch: seq<Notification>, ps: NotifParams, me: string, rel: Relations, notes: seq<Note>)
    ensures var r := NotificationFilter(batch, ps, me, rel, notes);
      IsSubseq(r, batch)
      && forall n :: n in r <==> n in batch && Keep(n, ps, me, rel, notes)
  {
    NotificationFilterIsKeep(batch, ps, me, rel, notes);
    FilterIsSubseq(batch, KeepPred(ps, me, rel, notes));
  }

  /** A non-empty `includeTypes` decides the types alone: `excludeTypes` is then ignored. */
  lemma IncludeOverridesExclude(batch: seq<Notification>, ps: NotifParams, me: string, rel: Relations, notes: seq<Note>,
                                other: Option<seq<NotificationType>>)
    requires IncludeGiven(ps)
    ensures NotificationFilter(batch, ps, me, rel, notes) == NotificationFilter(batch, ps.(excludeTypes := other), me, rel, notes)
    ensures forall n :: n in NotificationFilter(batch, ps, me, rel, notes) ==> n.notificationType in ps.includeTypes.value
  {
    NotificationFilterIsKeep(batch, ps, me, rel, notes);
    NotificationFilterIsKeep(batch, ps.(excludeTypes := other), me, rel, notes);
    FilterExt(batch, KeepPred(ps, me, rel, notes), KeepPred(ps.(excludeTypes := other), me, rel, notes));
  }

  /**
   * A notification without a notifier and without a notifier host passes
   * the mute and block steps, and is dropped by `following`.
   */
  lemma NoNotifierPassesScreens(n: Notification, ps: NotifParams, me: string, rel: Relations, notes: seq<Note>)
    requires !Truthy(n.notifierId) && !Truthy(n.notifierHost)
    ensures !HostMuted(n, rel) && !NotifierShunned(n, rel)
    ensures ps.following ==> !Keep(n, ps, me, rel, notes)
    ensures !ps.unreadOnly && !ps.following && TypeWanted(n, ps) && !DirectApplies(ps) ==> Keep(n, ps, me, rel, notes)
  {
  }

  /** The filter is idempotent: a second pass over its own output keeps everything. */
  lemma NotificationFilterIdempotent(batch: seq<Notification>, ps: NotifParams, me: string, rel: Relations, notes: seq<Note>)
    ensures var once := NotificationFilter(batch, ps, me, rel, notes);
      NotificationFilter(once, ps, me, rel, notes) == once
  {
    NotificationFilterIsKeep(batch, ps, me, rel, notes);
    var once := Filter(batch, KeepPred(ps, me, rel, notes));
    NotificationFilterIsKeep(once, ps, me, rel, notes);
    FilterIdempotent(batch, KeepPred(ps, me, rel, notes));
  }

  // ---------------------------------------------------------------------
  // The endpoint

  /** The `notification` table as the scan reads it, `filter` applied through `Keep`. */
  function NotificationTable(rows: seq<NotificationRow>, ps: NotifParams, me: string, rel: Relations, notes: seq<Note>)
    : Feed<NotificationRow, Notification>
  {
    Feed(rows, (r: NotificationRow) => r.createdAt, (r: NotificationRow) => r.targetId, ParseScyllaNotification,
         KeepPred(ps, me, rel, notes))
  }

  /**
   * The store path of the endpoint for viewer `me`: `[]` without a query
   * for the requests `SkipsQuery` names, else the scan of the `notification`
   * partition of `me` with at most 30 partitions, cut to `limit`.
   */
  method ListNotifications(ps: NotifParams, me: string, rel: Relations, rows: seq<NotificationRow>, notes: seq<Note>,
                           now: int, getTimestamp: string -> int, queryLimit: int) returns (r: Result<seq<Notification>>)
    requires queryLimit > 0
    ensures SkipsQuery(ps) ==> r == Ok([])
    ensures !SkipsQuery(ps) ==>
      var spec := Paginate(NotificationTable(rows, ps, me, rel, notes), NotificationFeed, ps.page, Some(me),
                           now, getTimestamp, true, queryLimit, NotificationPartitions);
      (spec.Err? ==> r == Err(spec.msg))
      && (spec.Ok? ==> r == Ok(Take(MapSeq(spec.value.rows, ParseScyllaNotification), ps.page.limit)))
  {
    if SkipsQuery(ps) {
      return Ok([]);
    }
    var found, _ := ExecPaginationQuery(NotificationTable(rows, ps, me, rel, notes), NotificationFeed, ps.page, Some(me),
                                        now, getTimestamp, true, queryLimit, NotificationPartitions);
    if found.Err? {
      return Err(found.msg);
    }
    r := Ok(Take(found.value, ps.page.limit));
  }

  /**
   * The scan behind the endpoint succeeds for a signed-in viewer (who always
   * has an id) and counts at most 30 short partitions; the endpoint then
   * returns at most `limit` notifications.
   */
  lemma ListNotificationsBounded(ps: NotifParams, me: string, rel: Relations, rows: seq<NotificationRow>, notes: seq<Note>,
                                 now: int, getTimestamp: string -> int, queryLimit: int)
    requires queryLimit > 0 && me != ""
    ensures var spec := Paginate(NotificationTable(rows, ps, me, rel, notes), NotificationFeed, ps.page, Some(me),
                                 now, getTimestamp, true, queryLimit, NotificationPartitions);
      spec.Ok?
      && spec.value.scanned <= NotificationPartitions
      && |Take(MapSeq(spec.value.rows, ParseScyllaNotification), ps.page.limit)| <= Max(ps.page.limit, 0)
  {
    PaginateSound(NotificationTable(rows, ps, me, rel, notes), NotificationFeed, ps.page, Some(me), now, getTimestamp,
                  queryLimit, NotificationPartitions);
  }

  /** Every notification the endpoint returns is addressed to the viewer and passes the closure. */
  lemma ListNotificationsKept(ps: NotifParams, me: string, rel: Relations, rows: seq<NotificationRow>, notes: seq<Note>,
                              now: int, getTimestamp: string -> int, queryLimit: int)
    requires queryLimit > 0 && me != ""
    ensures var spec := Paginate(NotificationTable(rows, ps, me, rel, notes), NotificationFeed, ps.page, Some(me),
                                 now, getTimestamp, true, queryLimit, NotificationPartitions);
      spec.Ok? &&
      var out := Take(MapSeq(spec.value.rows, ParseScyllaNotification), ps.page.limit);
      forall i :: 0 <= i < |out| ==> out[i].targetId == me && Keep(out[i], ps, me, rel, notes)
  {
    var f := NotificationTable(rows, ps, me, rel, notes);
    PaginateKept(f, NotificationFeed, ps.page, Some(me), now, getTimestamp, queryLimit, NotificationPartitions);
    var spec := Paginate(f, NotificationFeed, ps.page, Some(me), now, getTimestamp, true, queryLimit, NotificationPartitions);
    DecodedRowsKept(rows, spec.value.rows, me, ps, rel, notes, ps.page.limit);
  }

  /** With the table in clustering order, the endpoint returns the newest notifications first. */
  lemma ListNotificationsNewestFirst(ps: NotifParams, me: string, rel: Relations, rows: seq<NotificationRow>, notes: seq<Note>,
                                     now: int, getTimestamp: string -> int, queryLimit: int)
    requires queryLimit > 0 && me != ""
    requires SortedDesc(rows, (r: NotificationRow) => r.createdAt)
    ensures var spec := Paginate(NotificationTable(rows, ps, me, rel, notes), NotificationFeed, ps.page, Some(me),
                                 now, getTimestamp, true, queryLimit, NotificationPartitions);
      spec.Ok?
      && SortedDesc(Take(MapSeq(spec.value.rows, ParseScyllaNotification), ps.page.limit), (n: Notification) => n.createdAt)
  {
    var f := NotificationTable(rows, ps, me, rel, notes);
    PaginateSound(f, NotificationFeed, ps.page, Some(me), now, getTimestamp, queryLimit, NotificationPartitions);
    var spec := Paginate(f, NotificationFeed, ps.page, Some(me), now, getTimestamp, true, queryLimit, NotificationPartitions);
    assert SortedDesc(rows, f.stamp);
    SortedMapTake(spec.value.rows, ParseScyllaNotification, f.stamp, (n: Notification) => n.createdAt, ps.page.limit);
  }

  /** The kept rows of `me`'s partition, decoded and cut, are notifications of `me` that `Keep` accepts. */
  lemma DecodedRowsKept(table: seq<NotificationRow>, rows: seq<NotificationRow>, me: string, ps: NotifParams, rel: Relations,
                        notes: seq<Note>, n: int)
    requires var f := NotificationTable(table, ps, me, rel, notes);
      forall i :: 0 <= i < |rows| ==> f.keep(f.decode(rows[i])) && f.key(rows[i]) == KeyValue(NotificationFeed, ps.page, Some(me))
    ensures var out := Take(MapSeq(rows, ParseScyllaNotification), n);
      forall i :: 0 <= i < |out| ==> out[i].targetId == me && Keep(out[i], ps, me, rel, notes)
  {
    var out := Take(MapSeq(rows, ParseScyllaNotification), n);
    forall i | 0 <= i < |out|
      ensures out[i].targetId == me && Keep(out[i], ps, me, rel, notes)
    {
      assert out[i] == ParseScyllaNotification(rows[i]);
    }
  }
}

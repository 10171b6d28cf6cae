/**
 * `createNotification` (`services/create-notification.ts`): the checks that
 * suppress a notification, and the record it writes otherwise: a
 * `notification` row of the wide-column store, or a relational record that
 * carries the caller's fields and a read flag. The users it reads, the
 * notifiee's local followings, profile and thread mutes are given as
 * lookups; the stream, push and e-mail events are not modelled.
 */
module Notifying {
  import opened Common
  import opened ScyllaRows

  /** The note a notification is about, as far as thread muting reads it. */
  datatype NoteRef = NoteRef(id: string, threadId: Option<string>)

  /** The `data` argument: the caller's partial notification. */
  datatype NotifyData = NotifyData(
    notifierId: Option<string>,
    note: Option<NoteRef>,
    noteId: Option<string>,
    followRequestId: Option<string>,
    userGroupInvitationId: Option<string>,
    appAccessTokenId: Option<string>,
    choice: Option<int>,
    customBody: Option<string>,
    customHeader: Option<string>,
    customIcon: Option<string>,
    reaction: Option<string>)

  /** A user as the cache returns them; `host` is `None` for a local user. */
  datatype UserInfo = UserInfo(id: string, host: Option<string>, isSilenced: bool, isSuspended: bool)

  /**
   * What `createNotification` reads: the notifier (`None` when unknown),
   * whether the notifier's instance is silenced, the notifiee's local
   * followings, the notifiee's muted notification types (`None` without a
   * profile) and the threads the notifiee muted.
   */
  datatype Lookups = Lookups(
    notifier: Option<UserInfo>,
    instanceSilenced: bool,
    followings: set<string>,
    mutingTypes: Option<seq<NotificationType>>,
    threadMutes: set<string>)

  /** A relational notification: the generated fields, the read flag and the caller's fields. */
  datatype TableNotification = TableNotification(
    id: string, createdAt: int, notifieeId: string, notificationType: NotificationType, isRead: bool, data: NotifyData)

  /** What one call writes, on the backend in use. */
  datatype Created = Stored(row: NotificationRow) | InTable(record: TableNotification)

  /** Who a written notification is for. */
  function Target(c: Created): string {
    if c.Stored? then c.row.targetId else c.record.notifieeId
  }

  /** The types whose notifier is looked up and screened. */
  predicate ScreensNotifier(t: NotificationType) {
    t in {Mention, Reply, Renote, Quote, Reaction}
  }

  /** A silenced or suspended notifier, or a remote one on a silenced instance. */
  predicate Shady(u: UserInfo, instanceSilenced: bool) {
    u.isSilenced || u.isSuspended || (u.host.Some? && instanceSilenced)
  }

  /** `data.note.threadId || data.note.id` */
  function ThreadOf(n: NoteRef): string {
    if Truthy(n.threadId) then n.threadId.value else n.id
  }

  /** The early returns of `createNotification`, in order. */
  predicate Suppressed(notifieeId: string, t: NotificationType, data: NotifyData, look: Lookups) {
    if Truthy(data.notifierId) && notifieeId == data.notifierId.value then true
    else if Truthy(data.notifierId) && ScreensNotifier(t)
         && (look.notifier.None? || (Shady(look.notifier.value, look.instanceSilenced) && look.notifier.value.id !in look.followings))
    then true
    else data.note.Some? && ThreadOf(data.note.value) in look.threadMutes
  }

  /** `notifierHost`: the screened notifier's host, else `null`. */
  function NotifierHost(t: NotificationType, data: NotifyData, look: Lookups): Option<string> {
    if Truthy(data.notifierId) && ScreensNotifier(t) && look.notifier.Some? then look.notifier.value.host else None
  }

  /** `data.noteId || data.followRequestId || data.userGroupInvitationId || data.appAccessTokenId || null` */
  function EntityId(data: NotifyData): (r: Option<string>)
    ensures r.Some? ==> r.value != ""
    ensures r.Some? ==> r in [data.noteId, data.followRequestId, data.userGroupInvitationId, data.appAccessTokenId]
    ensures Truthy(data.noteId) ==> r == data.noteId
    ensures r.None? <==> !Truthy(data.noteId) && !Truthy(data.followRequestId)
                         && !Truthy(data.userGroupInvitationId) && !Truthy(data.appAccessTokenId)
  {
    if Truthy(data.noteId) then data.noteId
    else if Truthy(data.followRequestId) then data.followRequestId
    else if Truthy(data.userGroupInvitationId) then data.userGroupInvitationId
    else if Truthy(data.appAccessTokenId) then data.appAccessTokenId
    else None
  }

  /** `profile?.mutingNotificationTypes.includes(type)` */
  predicate TypeMuted(t: NotificationType, look: Lookups) {
    look.mutingTypes.Some? && t in look.mutingTypes.value
  }

  /**
   * `createNotification(notifieeId, type, data)`: `None` when suppressed,
   * else what is written; `store` says whether the wide-column store is
   * configured, `id` and `now` are `genId()` and the clock.
   */
  function CreateNotification(notifieeId: string, t: NotificationType, data: NotifyData, look: Lookups,
                              store: bool, id: string, now: int): (r: Option<Created>)
    ensures r.None? <==> Suppressed(notifieeId, t, data, look)
    ensures r.Some? ==> Target(r.value) == notifieeId && (r.value.Stored? <==> store)
  {
    if Suppressed(notifieeId, t, data, look) then None
    else if store then
      Some(Stored(NotificationRow(notifieeId, now, id, t, data.notifierId, NotifierHost(t, data, look), EntityId(data),
                                  data.reaction, data.choice, data.customBody, data.customHeader, data.customIcon)))
    else Some(InTable(TableNotification(id, now, notifieeId, t, TypeMuted(t, look), data)))
  }

  /** Nobody is notified about their own action. */
  lemma NoSelfNotification(notifieeId: string, t: NotificationType, data: NotifyData, look: Lookups, store: bool, id: string, now: int)
    requires data.notifierId == Some(notifieeId) && notifieeId != ""
    ensures CreateNotification(notifieeId, t, data, look, store, id, now).None?
  {
  }

  /**
   * A screened type from an unknown notifier is dropped; from a shady one
   * exactly when the notifiee does not follow them (and nothing else
   * suppresses it).
   */
  lemma ScreenedNotifier(notifieeId: string, t: NotificationType, data: NotifyData, look: Lookups, store: bool, id: string, now: int)
    requires Truthy(data.notifierId) && data.notifierId.value != notifieeId && ScreensNotifier(t)
    requires data.note.None?
    ensures look.notifier.None? ==> CreateNotification(notifieeId, t, data, look, store, id, now).None?
    ensures look.notifier.Some? && Shady(look.notifier.value, look.instanceSilenced) ==>
      (CreateNotification(notifieeId, t, data, look, store, id, now).None? <==> look.notifier.value.id !in look.followings)
    ensures look.notifier.Some? && !Shady(look.notifier.value, look.instanceSilenced) ==>
      CreateNotification(notifieeId, t, data, look, store, id, now).Some?
  {
  }

  /**
   * For the types that do not screen the notifier, the notifier lookup, the
   * instance and the followings play no part.
   */
  lemma UnscreenedIgnoresNotifier(notifieeId: string, t: NotificationType, data: NotifyData, a: Lookups, b: Lookups,
                                  store: bool, id: string, now: int)
    requires !ScreensNotifier(t) && a.mutingTypes == b.mutingTypes && a.threadMutes == b.threadMutes
    ensures CreateNotification(notifieeId, t, data, a, store, id, now) == CreateNotification(notifieeId, t, data, b, store, id, now)
  {
  }

  /** A muted thread (the thread id, else the note's own id) suppresses the notification. */
  lemma ThreadMuteSuppresses(notifieeId: string, t: NotificationType, data: NotifyData, look: Lookups, store: bool, id: string, now: int)
    requires data.note.Some? && ThreadOf(data.note.value) in look.threadMutes
    ensures CreateNotification(notifieeId, t, data, look, store, id, now).None?
  {
  }

  /**
   * The store record: its dates are the clock, its entity is the first
   * present id, and it reads back through the decoder as the notification
   * the caller described, with absent fields `null`.
   */
  lemma StoredRecord(notifieeId: string, t: NotificationType, data: NotifyData, look: Lookups, id: string, now: int)
    requires !Suppressed(notifieeId, t, data, look)
    ensures var c := CreateNotification(notifieeId, t, data, look, true, id, now).value;
      var n := ParseScyllaNotification(c.row);
      && n.createdAt == now && n.createdAtDate == now && n.id == id && n.targetId == notifieeId
      && n.notificationType == t && n.notifierId == data.notifierId && n.entityId == EntityId(data)
      && n.reaction == data.reaction && n.choice == data.choice
      && (n.notifierHost.Some? ==> ScreensNotifier(t) && look.notifier.Some? && n.notifierHost == look.notifier.value.host)
  {
  }

  /** The relational record is marked read exactly when the notifiee mutes its type. */
  lemma TableRecordRead(notifieeId: string, t: NotificationType, data: NotifyData, look: Lookups, id: string, now: int)
    requires !Suppressed(notifieeId, t, data, look)
    ensures var c := CreateNotification(notifieeId, t, data, look, false, id, now).value;
      c.InTable? && c.record.data == data
      && (c.record.isRead <==> look.mutingTypes.Some? && t in look.mutingTypes.value)
  {
  }

  /** The notifications written so far, on whichever backend is in use. */
  class NotificationLog {
    var written: seq<Created>

    constructor ()
      ensures written == []
    {
      written := [];
    }

    /** `createNotification` together with its insert. */
    method Notify(notifieeId: string, t: NotificationType, data: NotifyData, look: Lookups,
                  store: bool, id: string, now: int) returns (r: Option<Created>)
      modifies this
      ensures r == CreateNotification(notifieeId, t, data, look, store, id, now)
      ensures written == old(written) + (if r.Some? then [r.value] else [])
    {
      r := CreateNotification(notifieeId, t, data, look, store, id, now);
      if r.Some? {
        written := written + [r.value];
      }
    }
  }
}

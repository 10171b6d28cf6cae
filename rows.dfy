/**
 * Entities of the wide-column store and the decoders that turn a stored row
 * into the object the services work with (db/scylla.ts).
 *
 * A raw row keeps a column as `Option` when the decoder applies a default to
 * it (`row.get(c) ?? d`); primary-key columns and the counters the insert
 * path always writes are plain values.
 */
module ScyllaRows {
  import opened Common

  datatype Visibility = Public | HomeOnly | Followers | Specified | Hidden

  datatype NotificationType =
    | Follow | Mention | Reply | Renote | Quote | Reaction | PollVote | PollEnded
    | ReceiveFollowRequest | FollowRequestAccepted | GroupInvited | App

  /** A drive file as embedded in a note row (the columns the core reads). */
  datatype DriveFile = DriveFile(
    id: string,
    mime: string,
    name: string,
    comment: Option<string>,
    url: string,
    thumbnailUrl: Option<string>,
    isSensitive: bool)

  /** One question poll, stored inside its note: choice index to choice text, in key order. */
  datatype Poll = Poll(expiresAt: Option<int>, multiple: bool, choices: seq<(int, string)>)

  datatype NoteEdit = NoteEdit(content: Option<string>, cw: Option<string>, files: seq<DriveFile>, updatedAt: int)

  /** A row of `note` or of one of its views; `feedUserId` is present in `home_timeline` rows only. */
  datatype NoteRow = NoteRow(
    createdAt: int,
    id: string,
    visibility: Visibility,
    content: Option<string>,
    name: Option<string>,
    cw: Option<string>,
    localOnly: bool,
    renoteCount: int,
    repliesCount: int,
    uri: Option<string>,
    url: Option<string>,
    score: int,
    files: Option<seq<DriveFile>>,
    visibleUserIds: Option<seq<string>>,
    mentions: Option<seq<string>>,
    emojis: Option<seq<string>>,
    tags: Option<seq<string>>,
    hasPoll: Option<bool>,
    poll: Option<Poll>,
    threadId: Option<string>,
    channelId: Option<string>,
    userId: string,
    userHost: string,
    replyId: Option<string>,
    replyUserId: Option<string>,
    replyUserHost: Option<string>,
    replyContent: Option<string>,
    replyCw: Option<string>,
    replyFiles: Option<seq<DriveFile>>,
    renoteId: Option<string>,
    renoteUserId: Option<string>,
    renoteUserHost: Option<string>,
    renoteContent: Option<string>,
    renoteCw: Option<string>,
    renoteFiles: Option<seq<DriveFile>>,
    reactions: Option<map<string, int>>,
    noteEdit: Option<seq<NoteEdit>>,
    updatedAt: Option<int>,
    mentionedRemoteUsers: Option<string>,
    feedUserId: Option<string>)

  /** A decoded note; `userHost` is `None` for a local author. */
  datatype Note = Note(
    createdAtDate: int,
    createdAt: int,
    id: string,
    visibility: Visibility,
    text: Option<string>,
    name: Option<string>,
    cw: Option<string>,
    localOnly: bool,
    renoteCount: int,
    repliesCount: int,
    uri: Option<string>,
    url: Option<string>,
    score: int,
    files: seq<DriveFile>,
    fileIds: seq<string>,
    attachedFileTypes: seq<string>,
    visibleUserIds: seq<string>,
    mentions: seq<string>,
    emojis: seq<string>,
    tags: seq<string>,
    hasPoll: bool,
    poll: Option<Poll>,
    threadId: Option<string>,
    channelId: Option<string>,
    userId: string,
    userHost: Option<string>,
    replyId: Option<string>,
    replyUserId: Option<string>,
    replyUserHost: Option<string>,
    replyText: Option<string>,
    replyCw: Option<string>,
    replyFiles: seq<DriveFile>,
    renoteId: Option<string>,
    renoteUserId: Option<string>,
    renoteUserHost: Option<string>,
    renoteText: Option<string>,
    renoteCw: Option<string>,
    renoteFiles: seq<DriveFile>,
    reactions: map<string, int>,
    noteEdit: seq<NoteEdit>,
    updatedAt: Option<int>,
    mentionedRemoteUsers: string)

  /** The host written into the `userHost` key column for local authors. */
  const LocalHost: string := "local"

  function FileIds(files: seq<DriveFile>): (r: seq<string>)
    ensures |r| == |files|
    ensures forall i :: 0 <= i < |files| ==> r[i] == files[i].id
  {
    if |files| == 0 then [] else [files[0].id] + FileIds(files[1..])
  }

  function FileTypes(files: seq<DriveFile>): (r: seq<string>)
    ensures |r| == |files|
    ensures forall i :: 0 <= i < |files| ==> r[i] == files[i].mime
  {
    if |files| == 0 then [] else [files[0].mime] + FileTypes(files[1..])
  }

  /** `parseScyllaNote`: defaults for the optional columns and the local-host sentinel mapped to `None`. */
  function ParseScyllaNote(row: NoteRow): (n: Note)
    ensures n.createdAt == row.createdAt && n.createdAtDate == row.createdAt
    ensures n.id == row.id && n.userId == row.userId && n.visibility == row.visibility
    ensures n.userHost.None? <==> row.userHost == LocalHost
    ensures n.userHost.Some? ==> n.userHost.value == row.userHost
    ensures n.files == OrElse(row.files, [])
    ensures |n.fileIds| == |n.files| == |n.attachedFileTypes|
    ensures forall i :: 0 <= i < |n.files| ==> n.fileIds[i] == n.files[i].id && n.attachedFileTypes[i] == n.files[i].mime
    ensures n.hasPoll <==> row.hasPoll == Some(true)
    ensures n.text == row.content && n.replyText == row.replyContent && n.renoteText == row.renoteContent
    ensures n.replyId == row.replyId && n.renoteId == row.renoteId && n.localOnly == row.localOnly
    ensures n.uri == row.uri && n.poll == row.poll && n.cw == row.cw
    ensures n.visibleUserIds == OrElse(row.visibleUserIds, []) && n.mentions == OrElse(row.mentions, [])
    ensures n.emojis == OrElse(row.emojis, []) && n.tags == OrElse(row.tags, [])
    ensures n.replyFiles == OrElse(row.replyFiles, []) && n.renoteFiles == OrElse(row.renoteFiles, [])
    ensures n.reactions == OrElse(row.reactions, map[]) && n.noteEdit == OrElse(row.noteEdit, [])
    ensures n.mentionedRemoteUsers == OrElse(row.mentionedRemoteUsers, "[]")
  {
    var files := OrElse(row.files, []);
    Note(
      row.createdAt, row.createdAt, row.id, row.visibility,
      row.content, row.name, row.cw, row.localOnly,
      row.renoteCount, row.repliesCount, row.uri, row.url, row.score,
      files, FileIds(files), FileTypes(files),
      OrElse(row.visibleUserIds, []), OrElse(row.mentions, []),
      OrElse(row.emojis, []), OrElse(row.tags, []),
      OrElse(row.hasPoll, false), row.poll, row.threadId, row.channelId,
      row.userId, if row.userHost != LocalHost then Some(row.userHost) else None,
      row.replyId, row.replyUserId, row.replyUserHost, row.replyContent, row.replyCw,
      OrElse(row.replyFiles, []),
      row.renoteId, row.renoteUserId, row.renoteUserHost, row.renoteContent, row.renoteCw,
      OrElse(row.renoteFiles, []),
      OrElse(row.reactions, map[]), OrElse(row.noteEdit, []), row.updatedAt,
      OrElse(row.mentionedRemoteUsers, "[]"))
  }

  /** The `userHost` value a service writes back into a key for a decoded note (`note.userHost ?? "local"`). */
  function KeyHost(host: Option<string>): string {
    OrElse(host, LocalHost)
  }

  /** The primary key of a `note` row: (createdAtDate, createdAt, userId, userHost, visibility). */
  datatype NoteKey = NoteKey(createdAtDate: int, createdAt: int, userId: string, userHost: string, visibility: Visibility)

  function RowKey(row: NoteRow): NoteKey {
    NoteKey(row.createdAt, row.createdAt, row.userId, row.userHost, row.visibility)
  }

  /** The key the delete and counter-update statements bind for a decoded note. */
  function DecodedKey(n: Note): NoteKey {
    NoteKey(n.createdAtDate, n.createdAt, n.userId, KeyHost(n.userHost), n.visibility)
  }

  /**
   * Decoding a row and rebuilding its key from the decoded note yields the
   * row's own key: the local-host sentinel survives the round trip.
   */
  lemma DecodedKeyRoundTrip(row: NoteRow)
    ensures DecodedKey(ParseScyllaNote(row)) == RowKey(row)
  {
  }

  /** A decoded note remembers the ids and types of exactly the files it carries. */
  lemma {:induction false} FileColumnsAgree(row: NoteRow, i: int)
    requires 0 <= i < |OrElse(row.files, [])|
    ensures ParseScyllaNote(row).fileIds[i] == OrElse(row.files, [])[i].id
    ensures ParseScyllaNote(row).attachedFileTypes[i] == OrElse(row.files, [])[i].mime
  {
  }

  /** A `home_timeline` row decoded together with the feed it was fanned out to. */
  datatype FeedNote = FeedNote(feedUserId: string, note: Note)

  /** `parseHomeTimeline` */
  function ParseHomeTimeline(row: NoteRow): (r: Option<FeedNote>)
    ensures r.Some? <==> row.feedUserId.Some?
    ensures r.Some? ==> r.value.feedUserId == row.feedUserId.value && r.value.note == ParseScyllaNote(row)
  {
    if row.feedUserId.Some? then Some(FeedNote(row.feedUserId.value, ParseScyllaNote(row))) else None
  }

  datatype NotificationRow = NotificationRow(
    targetId: string,
    createdAt: int,
    id: string,
    notificationType: NotificationType,
    notifierId: Option<string>,
    notifierHost: Option<string>,
    entityId: Option<string>,
    reaction: Option<string>,
    choice: Option<int>,
    customBody: Option<string>,
    customHeader: Option<string>,
    customIcon: Option<string>)

  datatype Notification = Notification(
    targetId: string,
    createdAtDate: int,
    createdAt: int,
    id: string,
    notificationType: NotificationType,
    notifierId: Option<string>,
    notifierHost: Option<string>,
    entityId: Option<string>,
    reaction: Option<string>,
    choice: Option<int>,
    customBody: Option<string>,
    customHeader: Option<string>,
    customIcon: Option<string>)

  /** `parseScyllaNotification`: every nullable column passes through, the date is the creation time. */
  function ParseScyllaNotification(row: NotificationRow): (n: Notification)
    ensures n.targetId == row.targetId && n.id == row.id && n.notificationType == row.notificationType
    ensures n.createdAt == row.createdAt && n.createdAtDate == row.createdAt
    ensures n.notifierId == row.notifierId && n.entityId == row.entityId
  {
    Notification(row.targetId, row.createdAt, row.createdAt, row.id, row.notificationType,
      row.notifierId, row.notifierHost, row.entityId, row.reaction, row.choice,
      row.customBody, row.customHeader, row.customIcon)
  }

  /** The inverse of the notification decoder: the row a notification is stored as. */
  function NotificationToRow(n: Notification): NotificationRow {
    NotificationRow(n.targetId, n.createdAt, n.id, n.notificationType,
      n.notifierId, n.notifierHost, n.entityId, n.reaction, n.choice,
      n.customBody, n.customHeader, n.customIcon)
  }

  /** Storing a notification whose two dates agree and reading it back gives the same notification. */
  lemma NotificationRoundTrip(n: Notification)
    requires n.createdAtDate == n.createdAt
    ensures ParseScyllaNotification(NotificationToRow(n)) == n
  {
  }

  datatype VoteRow = VoteRow(noteId: string, userId: string, userHost: Option<string>, choice: Option<seq<int>>, createdAt: int)

  datatype Vote = Vote(noteId: string, userId: string, userHost: Option<string>, choice: set<int>, createdAt: int)

  function SetOf(s: seq<int>): (r: set<int>)
    ensures forall x :: x in r <==> x in s
  {
    set x | x in s
  }

  /** `parseScyllaPollVote`: the stored choice list becomes a set; a missing list is the empty set. */
  function ParseScyllaPollVote(row: VoteRow): (v: Vote)
    ensures v.noteId == row.noteId && v.userId == row.userId && v.userHost == row.userHost
    ensures forall c :: c in v.choice <==> row.choice.Some? && c in row.choice.value
  {
    Vote(row.noteId, row.userId, row.userHost, SetOf(OrElse(row.choice, [])), row.createdAt)
  }

  /**
   * A row of the `reaction` tables. `E` is the `emoji` cell as the driver
   * returns it (a `PopulatedEmoji`, or null for a Unicode reaction); its
   * shape is defined in misc/populate-emojis.ts, which is not part of this
   * model.
   */
  datatype ReactionRow<E> = ReactionRow(id: string, noteId: string, userId: string, reaction: string, emoji: Option<E>,
                                        createdAt: int)

  /** `ScyllaNoteReaction`: a reaction with its populated emoji. */
  datatype NoteReaction<E> = NoteReaction(id: string, noteId: string, userId: string, reaction: string, emoji: Option<E>,
                                          createdAt: int)

  /** `parseScyllaReaction`: every one of the six columns, the emoji cell included. */
  function ParseScyllaReaction<E>(row: ReactionRow<E>): (r: NoteReaction<E>)
    ensures r.id == row.id && r.noteId == row.noteId && r.userId == row.userId
    ensures r.reaction == row.reaction && r.createdAt == row.createdAt
    ensures r.emoji == row.emoji
  {
    NoteReaction(row.id, row.noteId, row.userId, row.reaction, row.emoji, row.createdAt)
  }

  /** The row the `INSERT INTO reaction` statement writes for a reaction, column by column. */
  function ReactionToRow<E>(r: NoteReaction<E>): (row: ReactionRow<E>)
    ensures row.id == r.id && row.noteId == r.noteId && row.userId == r.userId
    ensures row.reaction == r.reaction && row.emoji == r.emoji && row.createdAt == r.createdAt
  {
    ReactionRow(r.id, r.noteId, r.userId, r.reaction, r.emoji, r.createdAt)
  }

  /** Decoding loses no column: a stored reaction decodes to itself, and a decoded row stores back to itself. */
  lemma ReactionRoundTrip<E>(r: NoteReaction<E>, row: ReactionRow<E>)
    ensures ParseScyllaReaction(ReactionToRow(r)) == r
    ensures ReactionToRow(ParseScyllaReaction(row)) == row
  {
  }

  /** The MIME types `getScyllaDrivePublicUrl` treats as images. */
  const ImageTypes: seq<string> := ["image/png", "image/apng", "image/gif", "image/jpeg", "image/webp", "image/svg+xml", "image/avif"]

  /**
   * `getScyllaDrivePublicUrl`: the file URL, or for a thumbnail the
   * thumbnail URL, falling back to the file URL for images and to nothing
   * otherwise.
   */
  function GetScyllaDrivePublicUrl(file: DriveFile, thumbnail: bool): (r: Option<string>)
    ensures !thumbnail ==> r == Some(file.url)
    ensures thumbnail && Truthy(file.thumbnailUrl) ==> r == file.thumbnailUrl
    ensures thumbnail && !Truthy(file.thumbnailUrl) ==> (r.Some? <==> file.mime in ImageTypes)
    ensures r.Some? ==> r.value == file.url || Some(r.value) == file.thumbnailUrl
  {
    var isImage := file.mime != "" && file.mime in ImageTypes;
    if thumbnail then
      (if Truthy(file.thumbnailUrl) then file.thumbnailUrl else if isImage then Some(file.url) else None)
    else Some(file.url)
  }
}

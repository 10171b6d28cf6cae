# Firefish feed core, modelled in Dafny

This project models the application-side logic of the Firefish backend.
Firefish serves post feeds ("notes") out of a wide-column store. That store
has no joins, so pagination over day partitions, joins against relationship
lists, post filtering and the upkeep of denormalised copies are all done in
application code. The model keeps the store, the Redis caches and the clock
as in-memory state:

- a table is a sequence of rows in clustering order (newest first);
- a query is a filter plus a `LIMIT` over that sequence;
- Redis is a map from keys to values plus an explicit TTL clock;
- time is an integer number of milliseconds, and a day is 86 400 000 ms.

One module per core component:

| module | file | what it models |
|---|---|---|
| `Common` | common.dfy | options and results, `filter`/`map`/`slice`/sort on sequences, the order-preserving subsequence relation, UTC day arithmetic, `trim` and `toLowerCase` |
| `ScyllaRows` | rows.dfy | the store's row types and their decoders (`parseScyllaNote`, `parseHomeTimeline`, `parseScyllaNotification`, `parseScyllaPollVote`, `parseScyllaReaction`) and `getScyllaDrivePublicUrl` |
| `NoteFilters` | filters.dfy | the visibility, channel, reply, mute, word-mute, block and renote-mute filters |
| `Pagination`, `PaginationProofs` | pagination.dfy | cursor resolution, `preparePaginationQuery` and the partition-walking loop of `execPaginationQuery`, including the list-feed pool |
| `Caches` | caches.dfy | `Cache`, `SetCache`, `HashCache` and `UserMutingsCache` as classes over a Redis-like store with a clock |
| `WordMute` | word_mute.dfy | `checkWordMute` and `getWordHardMute` |
| `NoteDelete` | note_delete.dfy | counter decrements on delete, propagation to and deletion of home-timeline copies, the federated activity, and `findCascadingNotes` |
| `PollVotes`, `PollVoting` | poll_votes.dfy, poll_vote.dfy | the vote table and the voting rules of `vote` |
| `ApQuestion`, `QuestionCounts`, `QuestionRelational` | question.dfy, question_counts.dfy, question_relational.dfy | `extractPollFromQuestion` and both paths of `updateQuestion` |
| `Notifying` | notify.dfy | the suppression rules and the record built by `createNotification` |
| `EndedPoll` | ended_poll.dfy | the recipients of the poll-ended notification |
| `HashtagIndex` | update_hashtag.dfy | `updateHashtag`, `updateUsertags` and `updateHashtags` |
| `HashtagTrend` | trend.dfy | the trending-tag aggregation and the top-5 selection |
| `ReactionLib` | reaction_lib.dfy | `decodeReaction`, `convertReactions` and `toDbReaction` |
| `NotificationFeed` | notifications_feed.dfy | the early exits and the filter of the notifications endpoint |
| `Refetch` | refetch.dfy | the shared merge, sort, cut and refetch loop of the timeline endpoints |
| `HybridTimeline`, `HomeTimeline`, `LocalTimeline`, `RecommendedTimeline`, `UserNotes`, `AntennaNotes`, `Featured`, `ReplyTree` | hybrid_timeline.dfy, timeline.dfy, local_timeline.dfy, recommended_timeline.dfy, users_notes.dfy, antennas.dfy, featured.dfy, children.dfy | the per-endpoint feed logic: the filter closures, the refetch loops, the 30-partition home scan, the featured day scan and the breadth-first reply walk |
| `ApRenderer` | renderer.dfy | the ActivityPub rendering of notes and questions: addressing as in section 5.6 of the W3C ActivityPub recommendation, summary, quote, sensitive flag, poll shape and vote tallies |
| `UriSplit` | parse_uri.dfy | the client's `parseUri`, a splitter that approximates the generic syntax of section 3 of RFC 3986 |

How the code is modelled:

- Pure code (decoders, filters, closures, renderers, the URI splitter)
  becomes functions, with lemmas about them.
- Loops that change state become methods with `while` loops proved
  against a specification function. Examples are the partition walk, the
  refetch loops, the featured day scan, the reply walk, the trend
  aggregation, `convertReactions`, the vote catch-up and the poll-end
  notification loop.
- The caches and the vote table become classes with `modifies` frames.

These become function parameters:

- calls into code outside the model (`getTimestamp`, `genId`,
  `normalizeForSearch`, `Notes.packMany`, RE2, the emoji regex, date
  parsing, acct resolution);
- the clock `now`.

Every feed filter is proved to be an order-preserving subsequence of its
input, and to be idempotent. The partition walk terminates, consumes at
most `maxPartitions` short pages and moves its cursor strictly older. Every
endpoint result is shown to come from the store, to satisfy the endpoint's
rules and to respect the endpoint's limit.

## Model

| member | source | states |
|---|---|---|
| Common.Filter | packages/backend/src/db/scylla.ts:640-648 | `filter` keeps exactly the elements that pass, in their order, and is never longer than its input |
| Common.MapSeq | packages/backend/src/db/scylla.ts:497 | `map` keeps the length and applies the function at every index |
| Common.SortDesc | packages/backend/src/server/api/endpoints/antennas/notes.ts:199 | the comparator `b - a` sort: a permutation of its input, largest key first |
| Common.JsSlice | packages/backend/src/server/api/endpoints/antennas/notes.ts:200 | JavaScript `slice`: never longer than its input, only its elements, the plain slice for in-range indices and a prefix from 0 |
| Common.Take | packages/backend/src/server/api/endpoints/notes/children.ts:76 | `slice(0, n)`: the first `n` elements, or all of them |
| Common.EndOfPreviousDay | packages/backend/src/db/scylla.ts:508-509 | the last millisecond of the UTC day before the day of `t`: earlier than `t`, one day before it, and just before that day's start |
| Common.Lower | packages/backend/src/misc/check-word-mute.ts:54 | `toLowerCase` keeps the length and lowers each character |
| Common.Trim | packages/backend/src/misc/check-word-mute.ts:43 | `trim` never makes a text longer |
| ApRenderer.RenderChoices | packages/backend/src/remote/activitypub/renderer/question.ts:12-41 | one choice per poll entry, named by its text; on the store path its count is the number of votes whose set holds the key, on the relational path the stored counter, or none past the counters' end |
| ApRenderer.TallyIsHolding | packages/backend/src/remote/activitypub/renderer/question.ts:27-28 | the store-path count is exactly the number of votes whose set holds the index |
| ApRenderer.RenderedCounts | packages/backend/src/remote/activitypub/renderer/question.ts:21-40 | reading a rendered choice back gives that choice's count |
| ApRenderer.RenderQuestion | packages/backend/src/remote/activitypub/renderer/question.ts:7-51 | the question's id and actor are built from the server's URL, its content is the note's text or empty, and it lists the choices under `anyOf` exactly when the poll is multiple-choice and under `oneOf` otherwise |
| ApRenderer.Counts | packages/backend/src/remote/activitypub/renderer/question.ts:21-40 | the counts of every choice as a reader of the rendered poll takes them |
| ApRenderer.ReadBack | packages/backend/src/remote/activitypub/renderer/question.ts:21-40 | the rendered choices give back the poll's texts and counts |
| ApRenderer.QuestionRoundTrip | packages/backend/src/remote/activitypub/renderer/question.ts:42-48 | a question rendered here and read back by `extractPollFromQuestion` keeps its texts, counts and kind, with no expiry |
| ApRenderer.Addressing | packages/backend/src/remote/activitypub/renderer/note.ts:108-122 | public notes go to the public collection with followers and mentions in copy; home notes the other way round; followers notes to the followers with mentions in copy; others only to the mentions |
| ApRenderer.Audience | packages/backend/src/remote/activitypub/renderer/note.ts:108-122 | every mentioned actor is addressed; the public collection exactly for public and home notes, the followers exactly for public, home and followers notes; nobody else |
| ApRenderer.Summary | packages/backend/src/remote/activitypub/renderer/note.ts:153 | an empty content warning becomes a zero-width space; any other value is kept |
| ApRenderer.Quote | packages/backend/src/remote/activitypub/renderer/note.ts:80-100 | the quote is set exactly when the renoted note exists; it is the renote's URI, else its local URL |
| ApRenderer.InReplyTo | packages/backend/src/remote/activitypub/renderer/note.ts:38-78 | no reply id gives `null`; a link or embedding needs the replied note and its author; a local reply is embedded only when diving |
| ApRenderer.FindFile | packages/backend/src/remote/activitypub/renderer/note.ts:34 | `find` answers a file of the list with that id, and nothing exactly when none has it |
| ApRenderer.PromisedFiles | packages/backend/src/remote/activitypub/renderer/note.ts:30-36 | the attachments are found drive files, at most one per id |
| ApRenderer.PromisedFilesOrder | packages/backend/src/remote/activitypub/renderer/note.ts:30-36 | the attachments keep the order of the note's file ids, and are exactly those ids when every one is found |
| ApRenderer.NotePoll | packages/backend/src/remote/activitypub/renderer/note.ts:137-145 | the poll is read only when the note has one: from the note on the store path, from the poll row otherwise |
| ApRenderer.RenderPoll | packages/backend/src/remote/activitypub/renderer/note.ts:206-217 | the expiry goes under `closed` exactly when it has passed, else under `endTime`; the choices are the rendered ones |
| ApRenderer.RenderNote | packages/backend/src/remote/activitypub/renderer/note.ts:25-249 | the object's id, authorship, addressing, summary, source, quote, reply, attachments and sensitivity are those of the helpers; a note with a poll becomes a `Question` whose content drops the quote line, otherwise the content carries `RE:` and the quote |
| ApRenderer.AsObject | packages/backend/src/remote/activitypub/renderer/note.ts:226-248 | the rendered object keeps its kind, id and content as a remote server reads it |
| ApRenderer.NoteRoundTrip | packages/backend/src/remote/activitypub/renderer/note.ts:206-217 | a note with a poll, rendered and read back by `extractPollFromQuestion`, gives back its texts, counts, kind and expiry; a note without one is refused as not a question |
| ApRenderer.VoteRaisesCount | packages/backend/src/remote/activitypub/renderer/note.ts:180-193 | on the store path a first vote by a new voter raises the rendered count of each choice it holds by one and leaves the others |
| ScyllaRows.FileIds | packages/backend/src/db/scylla.ts:250 | one id per file, in order |
| ScyllaRows.FileTypes | packages/backend/src/db/scylla.ts:251 | one type per file, in order |
| ScyllaRows.ParseScyllaNote | packages/backend/src/db/scylla.ts:231-284 | the decoded note keeps the row's key columns and texts, maps the local-host sentinel to no host, defaults each missing list (`visibleUserIds`, `mentions`, `emojis`, `tags`, `replyFiles`, `renoteFiles`, `noteEdit`) to `[]`, `reactions` to `{}` and `mentionedRemoteUsers` to `"[]"`, and lists the ids and types of exactly its files |
| ScyllaRows.DecodedKeyRoundTrip | packages/backend/src/db/scylla.ts:261 | rebuilding the key from a decoded note gives the row's own key: the local-host sentinel survives |
| ScyllaRows.FileColumnsAgree | packages/backend/src/db/scylla.ts:249-251 | a decoded note's file ids and types belong to the files at the same positions |
| ScyllaRows.ParseHomeTimeline | packages/backend/src/db/scylla.ts:286-295 | a home-timeline row decodes to its feed owner and the decoded note, and only a row carrying a feed owner decodes |
| ScyllaRows.ParseScyllaNotification | packages/backend/src/db/scylla.ts:131-147 | a notification keeps every column, and its date is its creation time |
| ScyllaRows.NotificationRoundTrip | packages/backend/src/db/scylla.ts:131-147 | storing a notification whose two dates agree and reading it back gives the same notification |
| ScyllaRows.SetOf | packages/backend/src/db/scylla.ts:212 | the set holds exactly the list's elements |
| ScyllaRows.ParseScyllaPollVote | packages/backend/src/db/scylla.ts:208-216 | a vote keeps its key and host, and its choice set holds exactly the stored list's elements, empty when missing |
| ScyllaRows.ParseScyllaReaction | packages/backend/src/db/scylla.ts:314-323 | a reaction keeps its id, note, user, reaction, populated emoji and date |
| ScyllaRows.ReactionToRow | packages/backend/src/db/cql.ts:149-152 | the reaction insert writes the id, note, user, reaction, emoji and date columns of the reaction |
| ScyllaRows.ReactionRoundTrip | packages/backend/src/db/scylla.ts:314-323 | decoding the row a reaction is written as gives the reaction back, and re-encoding a decoded row gives the row back |
| ScyllaRows.GetScyllaDrivePublicUrl | packages/backend/src/db/scylla.ts:166-185 | the file URL, or for a thumbnail the thumbnail URL, falling back to the file URL for images only |
| NoteFilters.FilterVisibility | packages/backend/src/db/scylla.ts:524-557 | keeps notes in order; anonymous viewers see exactly the public and home notes; a signed-in viewer also sees their own notes, notes addressed to or mentioning them, and a followers-only note exactly when following its author or being replied to; a specified note is seen only by its author, listed users and mentioned users |
| NoteFilters.FilterVisibilityIdempotent | packages/backend/src/db/scylla.ts:524-557 | filtering for visibility twice changes nothing |
| NoteFilters.SignedInSeesMore | packages/backend/src/db/scylla.ts:531-553 | a signed-in viewer sees every note an anonymous viewer sees, in the same order |
| NoteFilters.FollowingMoreSeesMore | packages/backend/src/db/scylla.ts:545-553 | following more users never hides a note |
| NoteFilters.FilterChannel | packages/backend/src/db/scylla.ts:559-586 | anonymous viewers see no channel notes; a signed-in viewer keeps every note outside a channel and the channel notes of followed channels, in order |
| NoteFilters.FilterReply | packages/backend/src/db/scylla.ts:588-610 | anonymous viewers see only non-replies and self-replies; without `withReplies` a signed-in viewer also sees replies by or to themselves; with it everything stays |
| NoteFilters.ReplyAnonymousSeesLess | packages/backend/src/db/scylla.ts:588-610 | signing in never hides a reply the anonymous viewer would see |
| NoteFilters.EffectiveMutes | packages/backend/src/db/scylla.ts:636-638 | the muted ids without the excluded user |
| NoteFilters.FilterMutedUser | packages/backend/src/db/scylla.ts:612-649 | drops notes by, replying to or renoting a muted user (unless excluded) and notes whose author, reply author or renote author is on a muted instance; keeps every other note, in order |
| NoteFilters.ExcludedAuthorKept | packages/backend/src/db/scylla.ts:636-648 | the excluded user's own notes survive even when that user is muted |
| NoteFilters.FilterMutedNote | packages/backend/src/db/scylla.ts:651-674 | keeps exactly the notes no hard word mute of the viewer matches, in order; no mutes keep everything and the viewer's own notes always stay (corrected behaviour, see "Left out") |
| NoteFilters.FilterBlockUser | packages/backend/src/db/scylla.ts:676-701 | drops exactly the notes by, replying to or renoting a listed user, in order |
| NoteFilters.BlockingMoreShowsLess | packages/backend/src/db/scylla.ts:695-700 | blocking more users never shows more notes |
| NoteFilters.FilterMutedRenotes | packages/backend/src/db/scylla.ts:703-721 | drops exactly the pure renotes by renote-muted users; notes with text or without a renote stay |
| NoteFilters.FilterChannelIdempotent | packages/backend/src/db/scylla.ts:559-586 | filtering channels twice changes nothing |
| NoteFilters.FilterReplyIdempotent | packages/backend/src/db/scylla.ts:588-610 | filtering replies twice changes nothing |
| NoteFilters.FilterMutedUserIdempotent | packages/backend/src/db/scylla.ts:612-649 | filtering muted users twice changes nothing |
| NoteFilters.FilterMutedNoteIdempotent | packages/backend/src/db/scylla.ts:651-674 | filtering word mutes twice changes nothing |
| NoteFilters.FilterBlockUserIdempotent | packages/backend/src/db/scylla.ts:676-701 | filtering blocks twice changes nothing |
| NoteFilters.FilterMutedRenotesIdempotent | packages/backend/src/db/scylla.ts:703-721 | filtering renote mutes twice changes nothing |
| NoteFilters.Unawaited | packages/backend/src/db/scylla.ts:524-721 | a filter called without `await` never yields an array; given a Promise, a filter whose path calls `notes.filter` yields a rejecting Promise |
| NoteFilters.BlockAndVisibilityCommute | packages/backend/src/db/scylla.ts:524-701 | the block and visibility filters may be applied in either order |
| NoteFilters.AudienceIsFilter | packages/backend/src/server/api/endpoints/notes/local-timeline.ts:153-155 | the channel, reply and visibility filters in a row keep exactly the notes the audience rule accepts, in order |
| NoteFilters.AudiencePointwise | packages/backend/src/server/api/endpoints/notes/local-timeline.ts:153-155 | the three audience predicates together accept a note exactly when the audience rule does |
| NoteFilters.ShunSteps | packages/backend/src/server/api/endpoints/notes/local-timeline.ts:156-169 | the four signed-in screens are four filters in a row |
| NoteFilters.UnshunnedPointwise | packages/backend/src/server/api/endpoints/notes/local-timeline.ts:156-169 | the four screen predicates together accept a note exactly when the combined screen does |
| NoteFilters.ShunIsFilter | packages/backend/src/server/api/endpoints/notes/local-timeline.ts:156-169 | the four screens in a row keep exactly the notes the combined screen accepts, in order |
| NoteFilters.BlockIds | packages/backend/src/server/api/endpoints/notes/featured.ts:108-112 | the ids passed to the block filter: blockers and blockees (none without a viewer) and every suspended user |
| NoteFilters.MaybeShunIsFilter | packages/backend/src/server/api/endpoints/notes/local-timeline.ts:156-169 | the screens applied only for a signed-in viewer are one filter |
| NoteFilters.FilesPointwise | packages/backend/src/server/api/endpoints/notes/local-timeline.ts:170-182 | the three media predicates together accept a note exactly when the media rule does |
| NoteFilters.FileStepsIsFilter | packages/backend/src/server/api/endpoints/notes/local-timeline.ts:170-182 | the media steps keep exactly the notes the media rule accepts, in order |
| NoteFilters.FileFlagsMeaning | packages/backend/src/server/api/endpoints/notes/local-timeline.ts:170-182 | `withFiles` demands a file; `fileType` demands a file of a listed type, so an empty list keeps nothing; `excludeNsfw` drops notes with a cw or a sensitive file; with no flag set every note passes |
| NoteFilters.ShownIsFilter | packages/backend/src/server/api/endpoints/notes/local-timeline.ts:170-183 | the media steps and the hidden rule keep exactly the notes the shown rule accepts, in order |
| Pagination.ResolveUntil | packages/backend/src/db/scylla.ts:369-375 | the upper bound is the current time, replaced by `untilId`'s time when set, and by `untilDate` when set and strictly earlier; it never exceeds either |
| Pagination.ResolveSince | packages/backend/src/db/scylla.ts:376-382 | the lower bound exists exactly when `sinceId` or `sinceDate` is set; it is the later of the two and equals one of them |
| Pagination.PreparePaginationQuery | packages/backend/src/db/scylla.ts:325-396 | the statement is the one the feed kind selects; the `since` clause appears exactly when a lower bound exists; the bounds are the resolved ones |
| Pagination.Page | packages/backend/src/db/scylla.ts:474-479 | one execution returns at most `LIMIT` rows, each a table row strictly older than the bound cursor |
| Pagination.PageMatches | packages/backend/src/db/scylla.ts:474-479 | every row of a page is a table row the bound statement selects (key, cursor, lower bound) |
| Pagination.PageSorted | packages/backend/src/db/scylla.ts:474-479 | a table in clustering order yields a page newest first |
| Pagination.QueryCursor | packages/backend/src/db/scylla.ts:451-468 | every feed binds the moving cursor, except the corrected list feed, which binds the resolved upper bound for each user |
| Pagination.StepProgress | packages/backend/src/db/scylla.ts:450-513 | an iteration that does not stop counts a short page, pops a user or moves the cursor past a row, so the loop ends |
| Pagination.Step | packages/backend/src/db/scylla.ts:451-512 | one round of the partition walk; `StepProgress`, `PaginationProofs.StepSound` and `PaginationProofs.StepSorted` state what a round keeps and that the walk advances |
| Pagination.Scan | packages/backend/src/db/scylla.ts:450-513 | the whole partition walk; `PaginationProofs.ScanSound` and `PaginationProofs.ScanSorted` state what it returns |
| Pagination.MakePlan | packages/backend/src/db/scylla.ts:441-447 | the list feed fetches `limit` rows per user and wants `limit` times the number of users; every other kind fetches `queryLimit` rows and wants `limit` |
| Pagination.Paginate | packages/backend/src/db/scylla.ts:418-437 | a disabled store gives `[]`; home, user, notification and reaction without `userId`, renotes without `noteId`, channel without `channelId` and list without user ids give their error messages, and no other input errs (corrected behaviour, see "Left out") |
| Pagination.ScanIgnoresReset | packages/backend/src/db/scylla.ts:450-513 | outside the list feed the corrected per-user cursor changes nothing |
| Pagination.PaginateAsWritten | packages/backend/src/db/scylla.ts:398-522 | the function as written agrees with `Paginate` outside the list feed and errs exactly on a missing parameter |
| Pagination.ExecPaginationQuery | packages/backend/src/db/scylla.ts:398-522 | the loop returns the decoded rows of the scan `Paginate` describes, or its error, and leaves the caller's user-id array as the scan leaves the pool (corrected behaviour, see "Left out") |
| Pagination.ScanRound | packages/backend/src/db/scylla.ts:451-512 | one loop iteration is one `Step` of the scan: pop the list key, execute, decode and filter, move the cursor |
| Pagination.FinishRound | packages/backend/src/db/scylla.ts:481-512 | the second half of an iteration is the step after the page came back: keep the filtered rows, move the cursor to the last row, count a short page and jump to the previous day's end |
| PaginationProofs.AfterPageSound | packages/backend/src/db/scylla.ts:481-512 | the second half of an iteration keeps the earlier rows, adds only eligible ones, counts at most one partition and never raises the cursor above the start |
| PaginationProofs.StepSound | packages/backend/src/db/scylla.ts:450-513 | one iteration keeps the earlier rows, pops at most one user and adds only eligible rows |
| PaginationProofs.ScanSound | packages/backend/src/db/scylla.ts:450-513 | the whole loop only grows the result, only shrinks the pool, returns only eligible rows, never passes the start cursor and counts at most `maxPartitions` short pages |
| PaginationProofs.AfterPageSorted | packages/backend/src/db/scylla.ts:481-512 | a sorted page older than the cursor keeps the result newest first |
| PaginationProofs.StepSorted | packages/backend/src/db/scylla.ts:450-513 | outside the list feed one iteration keeps the result newest first |
| PaginationProofs.ScanSorted | packages/backend/src/db/scylla.ts:450-513 | outside the list feed a table in clustering order gives a result newest first |
| PaginationProofs.PaginateSound | packages/backend/src/db/scylla.ts:398-522 | every returned row is a table row the caller's filter keeps, strictly between the resolved bounds and under the feed's key (a listed user for the list feed); at most `maxPartitions` short pages are counted; outside the list feed the result is newest first |
| PaginationProofs.PaginateKept | packages/backend/src/db/scylla.ts:481-502 | every returned row passes the caller's filter and, outside the list feed, lies under the feed's key |
| PaginationProofs.PaginateWithin | packages/backend/src/db/scylla.ts:367-375 | every returned row is a table row older than the resolved upper bound |
| PaginationProofs.TwoUserPlan | packages/backend/src/db/scylla.ts:441-447 | the two-user list call fetches one row per user and wants two |
| PaginationProofs.TwoUserCall | packages/backend/src/db/scylla.ts:439-450 | the two-user call is the scan from the upper bound with both users in the pool |
| PaginationProofs.TwoUserFirstStep | packages/backend/src/db/scylla.ts:462-501 | the last user is popped first and its note moves the cursor |
| PaginationProofs.TwoUserAsWrittenRest | packages/backend/src/db/scylla.ts:462-465 | as written the second user is queried below the first user's note and returns nothing |
| PaginationProofs.TwoUserResetRest | packages/backend/src/db/scylla.ts:462-465 | queried from the upper bound the second user returns its note |
| PaginationProofs.ListCursorCarriesOver | packages/backend/src/db/scylla.ts:462-465 | as written a followed user's note newer than the previous user's is lost; the corrected scan returns it |
| PaginationProofs.ScanThrowingMeetsRow | packages/backend/src/db/scylla.ts:450-513 | with a closure that always throws, the walk fails with its error exactly when the same walk keeping every row would return one, and otherwise ends where that walk ends, with nothing found |
| PaginationProofs.PaginateThrowingMeetsRow | packages/backend/src/db/scylla.ts:398-522 | with a closure that always throws, the read fails as the parameter checks say, or else with the closure's error exactly when the walk keeping every row returns a row; any answer is empty |
| PaginationProofs.ScanGrows | packages/backend/src/db/scylla.ts:450-513 | the walk only appends to what was found |
| PaginationProofs.ListStep | packages/backend/src/db/scylla.ts:462-465 | with the per-user reset, one list iteration pops the last user and appends exactly that user's page; an empty id stops the loop |
| PaginationProofs.ScanUnfold | packages/backend/src/db/scylla.ts:450-513 | the scan ends where one step stops, or where the scan from the next state ends |
| PaginationProofs.ListScanPop | packages/backend/src/db/scylla.ts:462-465 | one pop followed by the rest of the scan keeps exactly the pages of the users popped |
| PaginationProofs.ListScanComplete | packages/backend/src/db/scylla.ts:445-465 | the corrected list feed leaves a prefix of the pool and keeps exactly the pages of the users it popped, last user first |
| PaginationProofs.PaginateListComplete | packages/backend/src/db/scylla.ts:445-465 | the corrected list call returns exactly the pages of the users popped off `userIds` |
| Caches.Del | packages/backend/src/misc/cache.ts:190 | `DEL` leaves the key absent at every time and every other key as it was |
| Caches.Put | packages/backend/src/misc/cache.ts:175 | storing a value keeps the expiry of a live key and gives a new key none; other keys unchanged |
| Caches.SAdd | packages/backend/src/misc/cache.ts:175 | `SADD` makes the members the old ones plus the added ids, keeps the key's expiry, and touches no other key |
| Caches.SRem | packages/backend/src/misc/cache.ts:185 | `SREM` makes the members the old ones minus the removed ids; a set left non-empty keeps its expiry; other keys unchanged |
| Caches.HSet | packages/backend/src/misc/cache.ts:236 | `HSET` makes the fields the old ones overwritten by the given ones, keeps the key's expiry, and touches no other key |
| Caches.HDel | packages/backend/src/misc/cache.ts:249 | `HDEL` makes the fields the old ones minus the given names; a hash left non-empty keeps its expiry; other keys unchanged |
| Caches.Expire | packages/backend/src/misc/cache.ts:178 | `EXPIRE` gives a live key the expiry `now + secs` and leaves a missing key, the contents and every other key as they were |
| Caches.SetEx | packages/backend/src/misc/cache.ts:35 | `SET … EX` replaces the key's value with the given string and expiry; other keys unchanged |
| Caches.PrefixedKey | packages/backend/src/misc/cache.ts:23-25 | a null or empty key maps to the bare prefix, any other key to `prefix:key` |
| Caches.PrefixedKeyInjective | packages/backend/src/misc/cache.ts:23-25 | two keys map to the same Redis key only when both are missing or both are the same string |
| Caches.Cache.constructor | packages/backend/src/misc/cache.ts:18-21 | a new cache has prefix `cache:name`, the given time to live and no entries |
| Caches.Cache.Set | packages/backend/src/misc/cache.ts:27-36 | without a transaction, `set` stores the value under the prefixed key with a fresh time to live, readable right away when the time to live is positive; with one, it only appends the `SET … EX` to the transaction's queue and leaves the entries as they were |
| Caches.Transaction.Exec | packages/backend/src/misc/cache.ts:27-36 | running a transaction applies its queued writes in order, each time to live counted from then, empties the queue, and makes the last queued value readable |
| Caches.AppliedUntouched | packages/backend/src/misc/cache.ts:27-36 | a key that no queued write names keeps its entry, or stays absent, when the transaction runs |
| Caches.AppliedLast | packages/backend/src/misc/cache.ts:27-36 | the last write queued for a key decides its entry once the transaction runs |
| Caches.Cache.ExistsAny | packages/backend/src/misc/cache.ts:38-42 | `exists` with no key is refused with the Redis arity error; otherwise it holds exactly when some given key is stored and unexpired |
| Caches.Cache.Get | packages/backend/src/misc/cache.ts:44-52 | `get` returns the unexpired value if there is one; `renew` restarts a hit's time to live and nothing else changes |
| Caches.Cache.Delete | packages/backend/src/misc/cache.ts:80-85 | `delete` removes exactly the prefixed forms of the given keys |
| Caches.Cache.Fetch | packages/backend/src/misc/cache.ts:91-114 | the fetcher is called exactly on a miss (nothing stored, or the validator rejects it); a hit returns the stored value and leaves the entries as `get` leaves them (unchanged, or with `renew` that key's time to live restarted); a miss stores and returns the fetched one, and the next call then hits unless the validator rejects it |
| Caches.Cache.FetchMaybe | packages/backend/src/misc/cache.ts:120-145 | as `fetch`, except that an undefined fetch result is returned without being stored: on a hit and on an undefined result the entries are those `get` leaves (unchanged, or with `renew` the time to live restarted) |
| Caches.FetchedKeyDiffers | packages/backend/src/misc/cache.ts:158-159 | the `:fetched` marker key never equals the set's own key |
| Caches.SetCache.constructor | packages/backend/src/misc/cache.ts:153-161 | the set lives under `setcache:name:userId` and its marker under that key plus `:fetched` |
| Caches.SetCache.Add | packages/backend/src/misc/cache.ts:172-180 | `add` is set union; a set without expiry gets one hour, one with an expiry keeps it; no other key changes |
| Caches.SetCache.Delete | packages/backend/src/misc/cache.ts:182-187 | `delete` is set difference; no other key changes |
| Caches.SetCache.Clear | packages/backend/src/misc/cache.ts:189-191 | `clear` empties and removes the set |
| Caches.SetCache.Has | packages/backend/src/misc/cache.ts:193-195 | `has` holds exactly for the members |
| Caches.SetCache.NonEmpty | packages/backend/src/misc/cache.ts:197-199 | `exists` holds exactly when the set has a member |
| Caches.SetCache.GetAll | packages/backend/src/misc/cache.ts:201-203 | `getAll` returns exactly the members |
| Caches.SetCache.Fetch | packages/backend/src/misc/cache.ts:163-170 | without a live marker the set becomes exactly the loaded ids and the marker lives 30 minutes; with one nothing changes; no other key changes |
| Caches.Requested | packages/backend/src/misc/cache.ts:260-263 | the hash restricted to the requested fields that are present, with their stored values |
| Caches.HashCache.constructor | packages/backend/src/misc/cache.ts:211-219 | the hash lives under `hashcache:name:userId` and its marker under that key plus `:fetched` |
| Caches.HashCache.NonEmpty | packages/backend/src/misc/cache.ts:230-232 | `exists` holds exactly when the hash has a field |
| Caches.HashCache.SetHash | packages/backend/src/misc/cache.ts:234-241 | `setHash` merges the given fields in; a hash without expiry gets one hour, one with an expiry keeps it; no other key changes |
| Caches.HashCache.SetField | packages/backend/src/misc/cache.ts:243-245 | `set` writes one field and keeps the rest |
| Caches.HashCache.Delete | packages/backend/src/misc/cache.ts:247-251 | `delete` removes exactly the given fields |
| Caches.HashCache.Clear | packages/backend/src/misc/cache.ts:253-255 | `clear` empties and removes the hash |
| Caches.HashCache.Get | packages/backend/src/misc/cache.ts:257-269 | the requested fields that are present, or the whole hash when none is named |
| Caches.HashCache.Fetch | packages/backend/src/misc/cache.ts:221-228 | without a live marker the hash becomes exactly the loaded map and the marker lives 30 minutes; with one nothing changes |
| Caches.MuteReadingsAgree | packages/backend/src/misc/cache.ts:365-395 | a mute `isMuting` reports is never one `getAll` drops; the two readings differ only on a date equal to now or on text that is not a date |
| Caches.UserMutingsCache.constructor | packages/backend/src/misc/cache.ts:331-348 | wraps the given hash cache |
| Caches.UserMutingsCache.Mute | packages/backend/src/misc/cache.ts:357-359 | records the mutee with its expiry text, "" for a mute without end |
| Caches.UserMutingsCache.Unmute | packages/backend/src/misc/cache.ts:361-363 | removes the mutee's entry |
| Caches.UserMutingsCache.GetAll | packages/backend/src/misc/cache.ts:365-381 | returns each mutee whose mute has not expired exactly once, and deletes exactly the expired entries |
| Caches.UserMutingsCache.IsMuting | packages/backend/src/misc/cache.ts:383-395 | "" mutes, an absent entry does not, a date mutes exactly when it is later than now; an entry that does not mute is deleted and nothing else changes |
| UserNotes.LookupUser | packages/backend/src/server/api/endpoints/users/notes.ts:81-86 | a known id gives that user with its host; an unknown id gives none, which the endpoint answers with `NO_SUCH_USER` |
| UserNotes.AnonymousViewerFails | packages/backend/src/server/api/endpoints/users/notes.ts:128-134 | as written every anonymous request fails at the early check, reading a list that was never loaded; the corrected check never cuts it short |
| UserNotes.EarlyEmptyAgrees | packages/backend/src/server/api/endpoints/users/notes.ts:128-134 | for a signed-in viewer the as-written and corrected early checks agree: the viewer mutes the target, is blocked by it, or mutes its instance |
| UserNotes.LoadedWords | packages/backend/src/server/api/endpoints/users/notes.ts:114-121 | the corrected loader reads the cache entry under the viewer's id, else the viewer's own profile |
| UserNotes.TargetWordsReplaceViewers | packages/backend/src/server/api/endpoints/users/notes.ts:114-121 | as written a viewer who mutes "x", reading a user whose profile mutes nothing, sees every post of that user unmuted; the corrected loader mutes those "x" matches |
| UserNotes.ViewerWordsApply | packages/backend/src/server/api/endpoints/users/notes.ts:114-121 | with the corrected loader a post by someone else is word-muted exactly when the viewer's own profile mutes it |
| UserNotes.ViewerStepsIsFilter | packages/backend/src/server/api/endpoints/users/notes.ts:139-151 | the signed-in block keeps, in order, exactly the notes the viewer's screens accept; for an anonymous viewer it keeps all |
| UserNotes.UserNoteIsFilter | packages/backend/src/server/api/endpoints/users/notes.ts:136-179 | the closure keeps, in order, exactly the notes the user-notes rule accepts |
| UserNotes.UserNoteFlags | packages/backend/src/server/api/endpoints/users/notes.ts:137-177 | only the target's posts pass; without `includeMyRenotes` exactly the target's bare renotes are dropped; without `includeReplies` every reply is dropped; with both on and no media flag an anonymous viewer gets every public or home post of the target |
| UserNotes.SignedInUserNotes | packages/backend/src/server/api/endpoints/users/notes.ts:139-151 | a signed-in viewer also loses posts of muted users and instances, word-muted posts and posts involving blockers or blockees |
| UserNotes.UserPageSound | packages/backend/src/server/api/endpoints/users/notes.ts:181-188 | the page holds at most `limit` notes, newest first over a table in clustering order, each a decoded row of the target's older than the cursor that the closure accepts; it fails only for an empty id |
| UserNotes.UserNotesNotes | packages/backend/src/server/api/endpoints/users/notes.ts:80-190 | an unknown user gives `NO_SUCH_USER`; a target the signed-in viewer shuns gives `[]`; otherwise the page of the target's feed (corrected behaviour, see "Left out") |
| UserNotes.AnonymousReachesFeed | packages/backend/src/server/api/endpoints/users/notes.ts:128-188 | with the corrected check an anonymous request for a known user always reaches the feed and succeeds |
| UserNotes.UserNotesStore | packages/backend/src/server/api/endpoints/users/notes.ts:80-190 | the store branch answers the packed notes `UserNotesNotes` gives, or its error (corrected behaviour, see "Left out") |
| UserNotes.UserNotesResult | packages/backend/src/server/api/endpoints/users/notes.ts:80-190 | the answer of the store branch, with the corrected early check and word-mute loader of findings 5 and 6; `UserNotesStore` returns exactly it |
| WordMute.LastSlashBefore | packages/backend/src/misc/check-word-mute.ts:61 | the last slash before the bound, with no slash between it and the bound, or none at all |
| WordMute.RegexLiteral | packages/backend/src/misc/check-word-mute.ts:61 | a matched literal is a slash, a non-empty pattern, a slash and slash-free flags, with no line terminator anywhere |
| WordMute.RegexLiteralRoundTrip | packages/backend/src/misc/check-word-mute.ts:61 | a literal written as slash, pattern, slash, flags is read back as that pattern and those flags |
| WordMute.NonEmptyWords | packages/backend/src/misc/check-word-mute.ts:50 | the cleaned group holds exactly the non-empty keywords |
| WordMute.AnyEntryMutes | packages/backend/src/misc/check-word-mute.ts:47-77 | the loop answers true exactly when some entry mutes the text: a non-empty group whose keywords all occur case-insensitively, or a well-formed regular expression that matches |
| WordMute.CheckWordMute | packages/backend/src/misc/check-word-mute.ts:18-78 | no note and an empty trimmed text never mute; otherwise the answer is the loop's over the assembled text (corrected behaviour, see "Left out") |
| WordMute.GetWordHardMute | packages/backend/src/misc/check-word-mute.ts:80-104 | the viewer's own notes are never muted; otherwise a note is muted exactly when the list is non-empty and the note's text matches (corrected behaviour, see "Left out") |
| WordMute.WordMuteMonotone | packages/backend/src/misc/check-word-mute.ts:47-77 | adding entries never unmutes a note |
| WordMute.LowerIdempotent | packages/backend/src/misc/check-word-mute.ts:55 | lower-casing twice is lower-casing once |
| WordMute.KeywordCaseInsensitive | packages/backend/src/misc/check-word-mute.ts:54-56 | a keyword matches the same texts in upper or lower case |
| WordMute.EmptyKeywordsNeverMute | packages/backend/src/misc/check-word-mute.ts:50-53 | a group of empty keywords never mutes |
| WordMute.GlueRawText | packages/backend/src/misc/check-word-mute.ts:24-41 | the example's text runs the body and the reply's warning together as written, and keeps them apart with the separator |
| WordMute.GlueTextAsWritten | packages/backend/src/misc/check-word-mute.ts:30-43 | as written the example's trimmed text is "abc" |
| WordMute.GlueText | packages/backend/src/misc/check-word-mute.ts:30-43 | with the separator the example's trimmed text is "ab c" |
| WordMute.GlueMutesAsWritten | packages/backend/src/misc/check-word-mute.ts:30-58 | as written the keyword "bc", found in neither the body nor the reply's warning, mutes the note |
| WordMute.GlueDoesNotMute | packages/backend/src/misc/check-word-mute.ts:30-58 | with the separator the keyword "bc" does not mute the note |
| WordMute.SeparatedByBlank | packages/backend/src/misc/check-word-mute.ts:24-41 | with the separator the note's own text and the previews are kept apart by a space |
| WordMute.MuteText | packages/backend/src/misc/check-word-mute.ts:24-41 | the text the mutes are matched against, in the corrected form of finding 4; `SeparatedByBlank` states its shape |
| WordMute.Subject | packages/backend/src/misc/check-word-mute.ts:24-43 | the trimmed text the regular-expression mutes are tested on; see `GlueDoesNotMute` |
| NoteDelete.CopyKeyOfRow | packages/backend/src/db/scylla.ts:286-295 | a decoded home-timeline row keeps its feed user, and the key bound from the decoding is that row's own key |
| NoteDelete.BoundKeyOfRow | packages/backend/src/services/note/delete.ts:224-231 | the key the delete binds for a decoded row (with the local-host sentinel restored) is the row's own primary key |
| NoteDelete.Apply | packages/backend/src/db/cql.ts:58-64 | a counter update rewrites only the renote count and score, or only the replies count, and keeps the row's key, id and feed user |
| NoteDelete.UpdateNotes | packages/backend/src/db/cql.ts:58-64 | a conditional update rewrites exactly the rows with the bound key and adds none |
| NoteDelete.UpdateHome | packages/backend/src/services/note/delete.ts:78-91 | the per-copy home-timeline updates rewrite exactly the rows whose key is one of the copies' keys and add none |
| NoteDelete.Decremented | packages/backend/src/services/note/delete.ts:56-63 | the written counters are one less than the stored ones, never below zero; a reply step writes only the replies count |
| NoteDelete.NoteActivity | packages/backend/src/services/note/delete.ts:152-190 | an activity is federated exactly for a local author's note that is not local-only; it is an undone announce only for a pure renote whose target is stored, a tombstone of the note's own URL otherwise |
| NoteDelete.Children | packages/backend/src/services/note/delete.ts:263-281 | every child of a note replies to it or quotes it with text |
| NoteDelete.ChildrenStored | packages/backend/src/services/note/delete.ts:263-281 | every child is the decoding of a stored row |
| NoteDelete.ParentIds | packages/backend/src/services/note/delete.ts:263-281 | the parents of a note are exactly the ids it replies to or quotes with text |
| NoteDelete.CascadeListAncestry | packages/backend/src/services/note/delete.ts:296-299 | the depth-first walk below a note's children lists each note after the note it replies to or quotes |
| NoteDelete.CascadeListStored | packages/backend/src/services/note/delete.ts:296-299 | every note of the walk is drawn from the stored notes |
| NoteDelete.ChildrenCollected | packages/backend/src/services/note/delete.ts:296-299 | every child is collected by the walk |
| NoteDelete.FindCascadingNotes | packages/backend/src/services/note/delete.ts:257-304 | the result keeps, in order, only the walk's notes of local authors, and holds every local note reached from the deleted note through any chain of replies and text-bearing quotes |
| NoteDelete.CascadeSound | packages/backend/src/services/note/delete.ts:257-304 | the walk collects every direct reply and text-bearing quote, and every note at the end of any chain of them (transitively); each collected note descends from the deleted note through earlier ones, and the result is exactly the walk's local notes |
| NoteDelete.CascadeTransitive | packages/backend/src/services/note/delete.ts:257-304 | every note at the end of a reply/quote chain starting at the deleted note is in the walk |
| NoteDelete.CascadeReaches | packages/backend/src/services/note/delete.ts:257-304 | the last note of one such chain is in the walk: the depth bound (the number of stored notes) never cuts a chain short |
| NoteDelete.ChainCollected | packages/backend/src/services/note/delete.ts:257-304 | a chain no longer than the depth bound ends at a note the bounded walk collects |
| NoteDelete.SimpleChain | packages/backend/src/services/note/delete.ts:257-304 | every chain can be shortened to one without a repeated note that ends at the same note |
| NoteDelete.BelowCollected | packages/backend/src/services/note/delete.ts:263-281 | whatever the walk collects below one child is in the walk of the whole child list |
| NoteDelete.Cascade | packages/backend/src/services/note/delete.ts:257-304 | the recursive walk below one note id, with a depth bound; its properties are `CascadeSound`, `CascadeTransitive` and `CascadeReaches` |
| NoteDelete.CascadeList | packages/backend/src/services/note/delete.ts:263-281 | the walk over a list of children, each child followed by its own walk; see `BelowCollected` and `ChainCollected` |
| NoteDelete.StoreCascade | packages/backend/src/services/note/delete.ts:257-304 | the walk below the deleted note over the stored notes; `CascadeSound` and `CascadeTransitive` state what it collects |
| NoteDelete.Deliveries | packages/backend/src/services/note/delete.ts:152-208 | the own activity, then one tombstone per cascaded note that is not local-only, in the corrected form of finding 3; `NoteStore.Delete` returns exactly these |
| NoteDelete.CascadeDeliveriesAsWritten | packages/backend/src/services/note/delete.ts:195-208 | the delivery loop as written delivers at most one tombstone per cascaded note, only for notes carrying a local author |
| NoteDelete.CascadeAsWrittenDeliversNothing | packages/backend/src/services/note/delete.ts:195-208 | store-decoded notes carry no author, so the loop as written delivers nothing |
| NoteDelete.CascadeExample | packages/backend/src/services/note/delete.ts:195-208 | a single local reply is found by the walk yet, as written, gets no delivery; the corrected loop delivers one |
| NoteDelete.CascadeDeliveries | packages/backend/src/services/note/delete.ts:195-208 | the corrected loop federates one tombstone per collected note, from its own author, for its own URL |
| NoteDelete.DecrementStepEffect | packages/backend/src/services/note/delete.ts:49-92 | a decrement step writes the decremented counters into the target's rows and into every home-timeline copy, changes no other row and no table length; a target missing from the store changes nothing |
| NoteDelete.DecrementKeepsCounters | packages/backend/src/services/note/delete.ts:56-63 | a decrement step keeps every counter non-negative |
| NoteDelete.UpdateNotesKeeps | packages/backend/src/db/cql.ts:58-64 | a keyed update with non-negative counters keeps every counter non-negative |
| NoteDelete.UpdateHomeKeeps | packages/backend/src/db/cql.ts:122-128 | the home-timeline updates with non-negative counters keep every counter non-negative |
| NoteDelete.DeleteKeepsCounters | packages/backend/src/services/note/delete.ts:37-255 | a whole delete keeps every counter of both tables non-negative |
| NoteDelete.RemoveKeepsCounters | packages/backend/src/services/note/delete.ts:223-245 | the removal keeps every counter non-negative |
| NoteDelete.CopiesCovered | packages/backend/src/services/note/delete.ts:233-235 | every home-timeline row of the note is among the copies the select returns |
| NoteDelete.RemoveStepEffect | packages/backend/src/services/note/delete.ts:223-245 | after removal no row with the note's key and no home-timeline copy of it remains, every other note row survives, and nothing is added |
| NoteDelete.NoteStore.constructor | packages/backend/src/services/note/delete.ts:37-41 | the store starts from the given tables |
| NoteDelete.NoteStore.PropagateToCopies | packages/backend/src/services/note/delete.ts:72-91 | the loop over the copies applies the counter update to every copy's key and leaves the note table alone |
| NoteDelete.NoteStore.CounterStep | packages/backend/src/services/note/delete.ts:49-140 | one decrement step (renote or reply) changes the tables as the decrement step specifies |
| NoteDelete.NoteStore.Delete | packages/backend/src/services/note/delete.ts:37-255 | the tables end as the whole delete specifies; a quiet delete delivers nothing, otherwise the deliveries are those specified for the tables after the counter updates (corrected behaviour, see "Left out") |
| NoteDelete.NoteStore.RemoveNote | packages/backend/src/services/note/delete.ts:223-245 | the removal changes the tables as the remove step specifies |
| NoteDelete.PropagateNext | packages/backend/src/services/note/delete.ts:78-91 | one more copy processed is one more key added to the update |
| NoteDelete.RemoveNext | packages/backend/src/services/note/delete.ts:236-244 | one more copy deleted is one more key removed |
| NoteDelete.UpdateHomeMore | packages/backend/src/services/note/delete.ts:78-91 | updating one more key after a set of keys is updating their union |
| NoteDelete.RemoveHomeMore | packages/backend/src/services/note/delete.ts:236-244 | deleting one more key after a set of keys is deleting their union |
| PollVoting.StoreVote | packages/backend/src/services/note/polls/vote.ts:22-56 | an accepted vote is on a poll note and a listed choice key; it writes the earlier choices plus the new one without duplicates, and a second choice is accepted only on a multiple-choice poll and only when new; `blocked` means the owner blocks a voter other than the owner |
| PollVoting.StoreVoteErrors | packages/backend/src/services/note/polls/vote.ts:24-53 | each of `poll not found`, `invalid choice param`, `blocked` and `already voted` is thrown exactly when its check is the first to fail |
| PollVoting.VoteRowFor | packages/backend/src/services/note/polls/vote.ts:58-62 | the written row is under the (note, voter) key and decodes to the set of the chosen indexes |
| PollVoting.Recipients | packages/backend/src/services/note/polls/vote.ts:116-135 | `createNotification` is called for the note's owner first, then for every watcher other than the voter, and for nobody else |
| PollVoting.Vote | packages/backend/src/services/note/polls/vote.ts:17-136 | on a refusal the table is unchanged and the message is returned; on success the table is the old one with the voter's row replaced and the answer lists the users notified |
| PollVoting.VoteOnce | packages/backend/src/services/note/polls/vote.ts:47-53 | after a stored vote the same choice is refused with `already voted`, and a single-choice poll refuses every further choice |
| PollVoting.Increment | packages/backend/src/services/note/polls/vote.ts:104-108 | the counter of the chosen index goes up by one and every other counter is unchanged |
| PollVoting.RelationalVote | packages/backend/src/services/note/polls/vote.ts:63-108 | an accepted vote needs the poll and a valid index, is new on a multiple-choice poll and the first on a single-choice poll; it adds one vote row and raises that choice's counter |
| PollVoting.PathsAgree | packages/backend/src/services/note/polls/vote.ts:22-108 | for the same poll and the same earlier votes both paths accept or refuse alike, with the same message, and record the same choices |
| PollVotes.UpsertIsFilter | packages/backend/src/db/cql.ts:163 | the insert keeps every row under another key, in order, and appends the written row |
| PollVotes.UpsertMembers | packages/backend/src/db/cql.ts:163 | after the insert the table holds the new row and the rows under other keys, and nothing else |
| PollVotes.VotesOf | packages/backend/src/db/cql.ts:162 | the select for a note returns only that note's votes |
| PollVotes.VoterRows | packages/backend/src/services/note/polls/vote.ts:42-46 | the select with the voter's id returns exactly the rows under the (note, voter) key |
| PollVotes.Tally | packages/backend/src/remote/activitypub/renderer/question.ts:27-28 | a choice's count never exceeds the number of votes |
| PollVotes.TallyAppend | packages/backend/src/remote/activitypub/renderer/question.ts:27-28 | counting two lists of votes adds their counts |
| PollVotes.UpsertSelects | packages/backend/src/db/cql.ts:162-163 | after the insert the key selects exactly the written row |
| PollVotes.UpsertKeepsUnique | packages/backend/src/db/cql.ts:163 | the insert keeps the primary key unique |
| PollVotes.SubseqUnique | packages/backend/src/db/cql.ts:163 | a table kept in order from a table with unique keys still has unique keys |
| PollVotes.UpsertTallyFresh | packages/backend/src/db/cql.ts:163 | a row under a fresh key raises each of its choices' counts on its note by one and changes no other count |
| PollVotes.VoteTable.constructor | packages/backend/src/db/cql.ts:161-164 | the table starts with the given rows |
| PollVotes.VoteTable.Insert | packages/backend/src/db/cql.ts:163 | the table becomes the old rows with the written row replacing any row under its key |
| ApQuestion.ExtractPoll | packages/backend/src/remote/activitypub/models/question.ts:19-56 | a non-Question is rejected with `invalid type` and a Question with neither `oneOf` nor `anyOf` with `invalid question`; otherwise the poll is multiple exactly when `oneOf` is missing, lists the answers' names and their counts in order, and expires at `endTime`, else `closed`, else never |
| ApQuestion.Registered | packages/backend/src/remote/activitypub/models/question.ts:67-97 | a URI under the server's own URL is refused with `uri points local`; an accepted note is a decoded table row with that URI carrying a poll; every other refusal is `Question is not registed` |
| ApQuestion.Deficit | packages/backend/src/remote/activitypub/models/question.ts:119-125 | votes are added exactly when the remote count exists and exceeds the local one, and then as many as close the gap |
| ApQuestion.Repeat | packages/backend/src/remote/activitypub/models/question.ts:125-132 | the inner loop's plan is `n` copies of one index |
| ApQuestion.AnonVote | packages/backend/src/remote/activitypub/models/question.ts:127-131 | an anonymous vote row counts for its one choice on its note, with host `anonymous` |
| ApQuestion.UpdateQuestion | packages/backend/src/remote/activitypub/models/question.ts:63-157 | the store path's answer and the new table are those `StoreUpdate` gives: the refusals, `false` without answers, and the anonymous votes the loop inserts |
| ApQuestion.CatchUpVotes | packages/backend/src/remote/activitypub/models/question.ts:112-134 | the loop over the poll's choices answers and writes what `CatchUp` gives |
| ApQuestion.InsertAnonymous | packages/backend/src/remote/activitypub/models/question.ts:125-132 | the inner loop inserts the next `count` anonymous votes of the plan, and no other row |
| ApQuestion.RunOf | packages/backend/src/remote/activitypub/models/question.ts:125-132 | a run of one index inside the plan lies within it |
| ApQuestion.PlanPrefix | packages/backend/src/remote/activitypub/models/question.ts:117-134 | the votes planned for the first choices are a prefix of the votes planned for all |
| ApQuestion.PlanStep | packages/backend/src/remote/activitypub/models/question.ts:117-123 | one more choice extends the plan by its deficit, or stops it when its answer is missing |
| ApQuestion.PlanStops | packages/backend/src/remote/activitypub/models/question.ts:120-121 | once a choice misses its answer the loop throws and the plan stops growing |
| QuestionCounts.AnonIdInjective | packages/backend/src/remote/activitypub/models/question.ts:129 | distinct generated ids give distinct anonymous voter ids |
| QuestionCounts.InsertedKeyFree | packages/backend/src/remote/activitypub/models/question.ts:127-131 | a key nobody holds and no insert writes stays free |
| QuestionCounts.InsertedKeeps | packages/backend/src/remote/activitypub/models/question.ts:127-131 | a row whose key no insert writes survives the inserts |
| QuestionCounts.InsertedTallyStep | packages/backend/src/remote/activitypub/models/question.ts:127-131 | with fresh ids each insert adds one vote, for its own index |
| QuestionCounts.InsertedTally | packages/backend/src/remote/activitypub/models/question.ts:125-132 | with fresh ids the tally of an index grows by the number of times the plan names it |
| QuestionCounts.PlanFound | packages/backend/src/remote/activitypub/models/question.ts:120-121 | when the loop completes every choice found its answer |
| QuestionCounts.PlanAbsent | packages/backend/src/remote/activitypub/models/question.ts:117-134 | an index of no choice is never planned |
| QuestionCounts.PlanDeficit | packages/backend/src/remote/activitypub/models/question.ts:117-134 | with distinct indexes each choice's index is planned exactly as often as its deficit |
| QuestionCounts.PlanEmpty | packages/backend/src/remote/activitypub/models/question.ts:123-124 | the plan of the first choices is empty exactly when none of them is behind its remote count |
| QuestionCounts.CatchUpTally | packages/backend/src/remote/activitypub/models/question.ts:112-134 | the store path raises each local count to the remote one when the remote one is larger and leaves it alone otherwise |
| QuestionCounts.CatchUpKeeps | packages/backend/src/remote/activitypub/models/question.ts:112-134 | with fresh ids the store path never removes a vote row |
| QuestionCounts.CatchUpChanged | packages/backend/src/remote/activitypub/models/question.ts:110-156 | the answer is `true` exactly when some local count was behind its remote count |
| QuestionRelational.IndexOf | packages/backend/src/remote/activitypub/models/question.ts:138 | `indexOf` answers -1 exactly when the text is absent, and otherwise a position holding it |
| QuestionRelational.IndexOfDistinct | packages/backend/src/remote/activitypub/models/question.ts:138 | with distinct texts `indexOf` finds each choice at its own position |
| QuestionRelational.Reconciled | packages/backend/src/remote/activitypub/models/question.ts:137-146 | the loop never changes the number of counters |
| QuestionRelational.ReconcileVotes | packages/backend/src/remote/activitypub/models/question.ts:137-146 | the loop over the choices, overwriting the counters in place, ends with what `Reconciled` gives |
| QuestionRelational.VisitChoice | packages/backend/src/remote/activitypub/models/question.ts:138-145 | one iteration looks up the choice's answer and overwrites its counter when the counts differ |
| QuestionRelational.ReconciledStops | packages/backend/src/remote/activitypub/models/question.ts:139-140 | once the loop has thrown nothing after it changes the outcome |
| QuestionRelational.UpdatePollVotes | packages/backend/src/remote/activitypub/models/question.ts:136-156 | the answer is the loop's, and the counters written back are the loop's only when it did not throw |
| QuestionRelational.ReconciledStep | packages/backend/src/remote/activitypub/models/question.ts:138-145 | with distinct texts one more iteration overwrites its own counter with the remote count, or nothing |
| QuestionRelational.ReconciledFound | packages/backend/src/remote/activitypub/models/question.ts:139-140 | with distinct texts a completed loop found an answer for every choice |
| QuestionRelational.ReconciledCounts | packages/backend/src/remote/activitypub/models/question.ts:137-146 | with distinct texts a completed loop sets each counter whose answer has a count to that count and leaves the others alone |
| QuestionRelational.ReconciledChanged | packages/backend/src/remote/activitypub/models/question.ts:137-156 | with distinct texts the answer is `true` exactly when some counter differed from its remote count |
| Notifying.EntityId | packages/backend/src/services/create-notification.ts:81-86 | the first truthy id among note, follow request, group invitation and access token, so the note id wins when present; null exactly when none is truthy |
| Notifying.CreateNotification | packages/backend/src/services/create-notification.ts:23-134 | nothing is written exactly when the notification is suppressed; otherwise the record is addressed to the notifiee and goes to the store exactly when one is configured |
| Notifying.NoSelfNotification | packages/backend/src/services/create-notification.ts:28-30 | nobody is notified about their own action |
| Notifying.ScreenedNotifier | packages/backend/src/services/create-notification.ts:34-59 | for a mention, reply, renote, quote or reaction, an unknown notifier suppresses the notification, a silenced, suspended or silenced-instance notifier suppresses it exactly when the notifiee does not follow them, and any other notifier lets it through |
| Notifying.UnscreenedIgnoresNotifier | packages/backend/src/services/create-notification.ts:34-59 | for the other types the notifier lookup, its instance and the followings make no difference |
| Notifying.ThreadMuteSuppresses | packages/backend/src/services/create-notification.ts:65-76 | a muted thread (the note's thread id, else its own id) suppresses the notification |
| Notifying.StoredRecord | packages/backend/src/services/create-notification.ts:80-121 | the store record carries the clock, the new id, the notifiee, the type, the notifier, the first present entity id, reaction and choice, and reads back through the row decoder as that notification; a notifier host is only recorded for a screened type |
| Notifying.TableRecordRead | packages/backend/src/services/create-notification.ts:122-133 | the relational record carries the caller's data and is marked read exactly when the notifiee mutes that type |
| Notifying.NotificationLog.constructor | packages/backend/src/services/create-notification.ts:23 | the log starts empty |
| Notifying.NotificationLog.Notify | packages/backend/src/services/create-notification.ts:23-134 | performs the specified notification and appends exactly what it writes to the log |
| EndedPoll.LocalVoters | packages/backend/src/queue/processors/ended-poll-notification.ts:43-58 | on the store path, exactly the authors of the note's votes that have no host; on the relational path, what the local-user join returns |
| EndedPoll.Recipients | packages/backend/src/queue/processors/ended-poll-notification.ts:36-60 | no one for a missing note or one without a poll; otherwise the owner first, then every local voter, each exactly once |
| EndedPoll.EndedNeverSuppressed | packages/backend/src/services/create-notification.ts:23-76 | a `pollEnded` notification has no notifier and no note to check, so it is always written |
| EndedPoll.EndedPollNotification | packages/backend/src/queue/processors/ended-poll-notification.ts:18-70 | the question update is delivered exactly for a found note with a poll that is not local-only; the log gains one notification per recipient, in order |
| EndedPoll.NotifyAll | packages/backend/src/queue/processors/ended-poll-notification.ts:60-64 | the loop appends one `pollEnded` notification per recipient, in order |
| EndedPoll.EndedTargets | packages/backend/src/queue/processors/ended-poll-notification.ts:60-64 | the notifications written are addressed to the recipients, in order |
| EndedPoll.NotifiedOnce | packages/backend/src/queue/processors/ended-poll-notification.ts:41-64 | each user is notified exactly once when they own the poll or cast a local vote, and never otherwise; a remote count recorded under anonymous votes notifies no one |
| HomeTimeline.Advance | packages/backend/src/server/api/endpoints/notes/timeline.ts:92-123 | an empty page counts one more partition and moves the cursor back by the day rule; any other page moves the cursor strictly earlier, to its oldest row, leaving fewer table rows below it, and adds exactly the page's kept notes |
| HomeTimeline.SweepRound | packages/backend/src/server/api/endpoints/notes/timeline.ts:93-122 | one round of the loop is one `Advance` with the cursor moved to the end of the previous UTC day |
| HomeTimeline.TimelineStore | packages/backend/src/server/api/endpoints/notes/timeline.ts:79-125 | the store branch answers the packed first `limit` notes of the corrected sweep (corrected behaviour, see "Left out") |
| HomeTimeline.KeptIsFilter | packages/backend/src/server/api/endpoints/notes/timeline.ts:115-118 | the three filters keep, in order, exactly the notes `TimelineKeep` accepts |
| HomeTimeline.PageSwept | packages/backend/src/server/api/endpoints/notes/timeline.ts:95-118 | every kept note of a page at a cursor is a decoded table row below that cursor, by the viewer or a followed user, through the channel and reply filters |
| HomeTimeline.SweepSound | packages/backend/src/server/api/endpoints/notes/timeline.ts:92-123 | the sweep counts at most thirty empty pages, adds only notes by the viewer or followed users through the filters and strictly below the starting cursor, and stops only with `limit` notes or thirty empty pages |
| HomeTimeline.RunSweep | packages/backend/src/server/api/endpoints/notes/timeline.ts:92-123 | the day-by-day sweep of the home feed; `SweepSound` states what it finds |
| HomeTimeline.TimelineFound | packages/backend/src/server/api/endpoints/notes/timeline.ts:79-125 | the sweep started from the request, with the UTC day cursor of finding 2; `TimelineSound` states the answer |
| HomeTimeline.ExtendsTrans | packages/backend/src/server/api/endpoints/notes/timeline.ts:92-123 | what the sweep adds over two stretches it adds over their union |
| HomeTimeline.AdvanceSound | packages/backend/src/server/api/endpoints/notes/timeline.ts:92-123 | one round moves the cursor strictly earlier, counts at most one empty page and only adds allowed notes |
| HomeTimeline.TimelineSound | packages/backend/src/server/api/endpoints/notes/timeline.ts:79-125 | the endpoint returns at most `limit` notes, each by the viewer or a followed user, through the filters, strictly older than the starting cursor |
| HomeTimeline.LocalCursorOffByZone | packages/backend/src/server/api/endpoints/notes/timeline.ts:102-110 | the as-written cursor is the intended one shifted by the server's offset from UTC: west of UTC it can move later than the cursor itself, east of UTC it skips part of the previous day |
| HomeTimeline.WestOfUtcReturnsNewer | packages/backend/src/server/api/endpoints/notes/timeline.ts:80-123 | five hours west of UTC a request with `untilId` at 02:00 returns a note from 03:00, newer than its cursor |
| HomeTimeline.ExampleFirstRound | packages/backend/src/server/api/endpoints/notes/timeline.ts:99-111 | in the example the first round meets an empty page and moves the cursor forward to 04:59:59.999 |
| HomeTimeline.ExampleSecondRound | packages/backend/src/server/api/endpoints/notes/timeline.ts:114-122 | in the example the second round finds and keeps the 03:00 note |
| HomeTimeline.ExamplePages | packages/backend/src/server/api/endpoints/notes/timeline.ts:83-97 | in the example the page below 02:00 is empty and the page below 04:59:59.999 holds the 03:00 row |
| HomeTimeline.ExampleKept | packages/backend/src/server/api/endpoints/notes/timeline.ts:115-118 | the example's note is the viewer's own and passes the filters |
| HomeTimeline.WestOfUtcCorrected | packages/backend/src/server/api/endpoints/notes/timeline.ts:92-123 | with the intended cursor the same request finds nothing newer than its cursor |
| HashtagIndex.AddUserSound | packages/backend/src/services/update-hashtag.ts:64-67 | appending lists the user and keeps the others; the count grows by one exactly when the user was absent |
| HashtagIndex.FilterRemovesOne | packages/backend/src/services/update-hashtag.ts:88-90 | removing from a list without duplicates keeps it without duplicates and shortens it by one exactly when the user was listed |
| HashtagIndex.RemoveUserSound | packages/backend/src/services/update-hashtag.ts:87-99 | removal unlists exactly the user and lowers the count by one, so a list that did not hold the user no longer matches its count |
| HashtagIndex.AttachSound | packages/backend/src/services/update-hashtag.ts:61-86 | attaching lists the user in the attached list and in its locality's list, leaves the other lists alone and keeps a sound row sound |
| HashtagIndex.MentionSound | packages/backend/src/services/update-hashtag.ts:101-126 | mentioning lists the user in the mentioned list and in its locality's list, leaves the other lists alone and keeps a sound row sound |
| HashtagIndex.DetachSound | packages/backend/src/services/update-hashtag.ts:87-99 | detaching unlists the user and lowers the counts by one; a sound row that did not list the user is left with a count below its list |
| HashtagIndex.FreshSound | packages/backend/src/services/update-hashtag.ts:132-167 | a new row is sound and holds the user in exactly one group, split by locality |
| HashtagIndex.ChangedRow | packages/backend/src/services/update-hashtag.ts:54-131 | the `set` object applied to an existing row gives `Changed` |
| HashtagIndex.RowsAfterSound | packages/backend/src/services/update-hashtag.ts:42-173 | without a row a decrement changes nothing and updates no chart; an update touches only its own name's row, inserts the fresh row when missing and keeps a sound row sound except when detaching |
| HashtagIndex.TrendEntries | packages/backend/src/services/update-hashtag.ts:14-28 | one stream entry per tag, in order, with the normalised tag and the user |
| HashtagIndex.FoldFrame | packages/backend/src/services/update-hashtag.ts:14-28 | a run of updates touches only the rows of the names it visits |
| HashtagIndex.FoldAttachLists | packages/backend/src/services/update-hashtag.ts:33-35 | after attaching every tag each one's row exists and lists the user as attached |
| HashtagIndex.FoldDetachUnlists | packages/backend/src/services/update-hashtag.ts:37-39 | after detaching every tag no row of those names lists the user as attached |
| HashtagIndex.FoldKeepsKeys | packages/backend/src/services/update-hashtag.ts:37-39 | a detaching run neither removes nor creates a row |
| HashtagIndex.DroppedTags | packages/backend/src/services/update-hashtag.ts:37 | the dropped tags are exactly the old tags not among the new ones |
| HashtagIndex.UsertagsSound | packages/backend/src/services/update-hashtag.ts:32-40 | for normalised tags a profile edit leaves the user attached to every new tag and to no dropped one, and creates no row for a dropped tag |
| HashtagIndex.HashtagStore.constructor | packages/backend/src/services/update-hashtag.ts:1-7 | the store starts with the given rows and empty stream and chart |
| HashtagIndex.HashtagStore.UpdateHashtag | packages/backend/src/services/update-hashtag.ts:42-173 | the rows become `RowsAfter`, the chart gains an entry only for a mention, and the stream is unchanged |
| HashtagIndex.HashtagStore.UpdateUsertags | packages/backend/src/services/update-hashtag.ts:32-40 | the rows become those of attaching every new tag and then detaching every dropped one; chart and stream are unchanged |
| HashtagIndex.HashtagStore.UpdateHashtags | packages/backend/src/services/update-hashtag.ts:9-30 | the rows are those of mentioning every tag in turn; the chart gains one entry per tag and the stream one entry per tag, in order |
| HashtagIndex.MentionsCharted | packages/backend/src/services/update-hashtag.ts:9-30 | posting tags mentions each one and updates the chart once per tag |
| HashtagTrend.EntryUsers | packages/backend/src/server/api/endpoints/hashtags/trend.ts:88-98 | the posters of a tag in stream order: a user is listed exactly when the stream holds an entry of that tag by that user |
| HashtagTrend.UsersOf | packages/backend/src/server/api/endpoints/hashtags/trend.ts:93-97 | each tag's user list without repeats, as the `includes` check keeps it |
| HashtagTrend.UsersOfMembers | packages/backend/src/server/api/endpoints/hashtags/trend.ts:93-97 | a user is in a tag's list exactly when the stream has an entry of that tag by that user |
| HashtagTrend.FindTag | packages/backend/src/server/api/endpoints/hashtags/trend.ts:93 | `findIndex`: an index whose tag has the name, or -1 exactly when no tag has it |
| HashtagTrend.EntryUsersSnoc | packages/backend/src/server/api/endpoints/hashtags/trend.ts:88-98 | one more stream entry appends its user to the posters of its own tag only |
| HashtagTrend.UsersOfSnoc | packages/backend/src/server/api/endpoints/hashtags/trend.ts:94-97 | one more entry adds its user to its tag's list exactly when not yet there |
| HashtagTrend.NoPosters | packages/backend/src/server/api/endpoints/hashtags/trend.ts:96-97 | a tag no entry names has no posters |
| HashtagTrend.CollectNamed | packages/backend/src/server/api/endpoints/hashtags/trend.ts:93-97 | one iteration keeps the tag names distinct |
| HashtagTrend.CollectHoldsUnchanged | packages/backend/src/server/api/endpoints/hashtags/trend.ts:91-95 | a hidden tag, or a poster already listed, leaves every list equal to its posters |
| HashtagTrend.CollectHoldsPush | packages/backend/src/server/api/endpoints/hashtags/trend.ts:94-95 | pushing a new poster onto a found tag keeps every list equal to its posters |
| HashtagTrend.CollectHoldsOpen | packages/backend/src/server/api/endpoints/hashtags/trend.ts:96-97 | opening a new tag with its first poster keeps every list equal to its posters |
| HashtagTrend.CollectHolds | packages/backend/src/server/api/endpoints/hashtags/trend.ts:88-98 | one iteration keeps every collected tag unhidden, non-empty and listing exactly its distinct posters |
| HashtagTrend.CollectCovers | packages/backend/src/server/api/endpoints/hashtags/trend.ts:88-98 | after one iteration every unhidden tag of the stream so far has an entry in `tags` |
| HashtagTrend.AggregateSound | packages/backend/src/server/api/endpoints/hashtags/trend.ts:83-99 | the loop collects each unhidden tag of the stream exactly once, with exactly its distinct posters |
| HashtagTrend.Stats | packages/backend/src/server/api/endpoints/hashtags/trend.ts:102-112 | the answer of the store branch: at most five entries, the i-th naming the i-th most-posted tag with its poster count and an empty chart |
| HashtagTrend.RankedHolds | packages/backend/src/server/api/endpoints/hashtags/trend.ts:102-103 | sorting by poster count keeps every tag with its posters |
| HashtagTrend.RankedCovers | packages/backend/src/server/api/endpoints/hashtags/trend.ts:102-103 | sorting drops no tag |
| HashtagTrend.StatsCounted | packages/backend/src/server/api/endpoints/hashtags/trend.ts:107-112 | each returned tag is an unhidden tag of the stream, counted by its distinct posters |
| HashtagTrend.StatsTop | packages/backend/src/server/api/endpoints/hashtags/trend.ts:101-105 | no unhidden tag left out of the answer has more posters than a returned one |
| HashtagTrend.StatsTopAt | packages/backend/src/server/api/endpoints/hashtags/trend.ts:101-105 | an unhidden tag of the stream missing from the answer has no more distinct posters than any returned tag |
| HashtagTrend.LeftOutFewer | packages/backend/src/server/api/endpoints/hashtags/trend.ts:101-103 | after sorting by poster count, a tag ranked later has no more posters than one ranked earlier |
| HashtagTrend.StatsOrdered | packages/backend/src/server/api/endpoints/hashtags/trend.ts:101-103 | the returned counts descend |
| HashtagTrend.StatsSound | packages/backend/src/server/api/endpoints/hashtags/trend.ts:101-114 | sorted, correctly collected tags give a trending answer |
| HashtagTrend.TrendSound | packages/backend/src/server/api/endpoints/hashtags/trend.ts:77-114 | an empty stream gives `[]`; otherwise at most five unhidden tags of the stream, each with its distinct poster count and no chart, in descending order, and no tag left out has more posters than one returned |
| HashtagTrend.TrendStore | packages/backend/src/server/api/endpoints/hashtags/trend.ts:70-115 | the store branch, loop included, returns exactly `TrendAnswer` of the stream and the normalised hidden tags |
| ReactionLib.IndexOf | packages/backend/src/misc/reaction-lib.ts:98 | the first position of a character, or -1 when it does not occur; the `@` that separates name and host in `:name@host:` |
| ReactionLib.MatchCustomSound | packages/backend/src/misc/reaction-lib.ts:98 | every match of `/^:([\w+-]+)(?:@([\w.-]+))?:$/` yields a name of `[\w+-]` characters and an optional host of `[\w.-]` characters that spell the whole string |
| ReactionLib.MatchCustomComplete | packages/backend/src/misc/reaction-lib.ts:98 | every `:name:` and `:name@host:` of those classes is matched, with exactly its own name and host as the groups |
| ReactionLib.DecodeRemote | packages/backend/src/misc/reaction-lib.ts:97-109 | `:name@host:` decodes to itself, with that name and host |
| ReactionLib.DecodeLocal | packages/backend/src/misc/reaction-lib.ts:97-109 | `:name:` decodes to `:name@.:` with a null host |
| ReactionLib.DecodeOther | packages/backend/src/misc/reaction-lib.ts:111-115 | a string that is no custom reference is returned unchanged, with name and host undefined |
| ReactionLib.DecodeIdempotent | packages/backend/src/misc/reaction-lib.ts:97-116 | decoding the decoded reaction gives the same reaction again |
| ReactionLib.DecodeReaction | packages/backend/src/misc/reaction-lib.ts:97-116 | the reaction decoder; `DecodeRemote`, `DecodeLocal`, `DecodeOther` and `DecodeIdempotent` state its three cases and that decoding is idempotent |
| ReactionLib.CountFor | packages/backend/src/misc/reaction-lib.ts:32-36 | the sum of the positive counts whose key decodes to a given reaction; never negative |
| ReactionLib.PositiveTotal | packages/backend/src/misc/reaction-lib.ts:32-33 | the sum of the positive counts of a record; never negative |
| ReactionLib.ConvertedKeys | packages/backend/src/misc/reaction-lib.ts:29-40 | a decoded reaction is a key of the result exactly when some key with a positive count decodes to it |
| ReactionLib.ConvertedValues | packages/backend/src/misc/reaction-lib.ts:33-36 | each result key maps to the positive sum of the counts decoding to it; reactions that are no key have nothing to count |
| ReactionLib.ConvertedCounts | packages/backend/src/misc/reaction-lib.ts:29-40 | `convertReactions`: keys are exactly the decodings of keys with positive counts, each mapped to the sum of those counts, which is positive; counts of zero or less are skipped |
| ReactionLib.TotalRemove | packages/backend/src/misc/reaction-lib.ts:39 | the sum of a record's values does not depend on the key taken out first |
| ReactionLib.TotalSwap | packages/backend/src/misc/reaction-lib.ts:39 | taking either of two keys out first gives the same sum |
| ReactionLib.TotalUpdate | packages/backend/src/misc/reaction-lib.ts:36 | `result.set(k, v)` changes the sum by `v` minus the old value of `k` |
| ReactionLib.ConvertedTotal | packages/backend/src/misc/reaction-lib.ts:29-40 | the counts of the result add up to the positive counts of the input: no reaction is lost or invented |
| ReactionLib.ConvertReactions | packages/backend/src/misc/reaction-lib.ts:29-40 | the loop over the record's entries builds exactly `Converted` of them |
| ReactionLib.MatchLocalExact | packages/backend/src/misc/reaction-lib.ts:59 | `/^:([\w+-]+)(?:@\.)?:$/` matches exactly `:name:` and `:name@.:` with a name of `[\w+-]` characters, and captures that name |
| ReactionLib.ToDbHeart | packages/backend/src/misc/reaction-lib.ts:50 | the suit heart U+2665 U+FE0F is stored as the red heart U+2764 U+FE0F with no emoji row, whatever the emoji pattern says |
| ReactionLib.ToDbCustom | packages/backend/src/misc/reaction-lib.ts:46-77 | a missing or empty reaction falls back; a local custom reference the emoji pattern does not claim is stored as `:name@host:` (or `:name:` for a local reacter) when the emoji exists, and falls back otherwise |
| ReactionLib.ToDbReaction | packages/backend/src/misc/reaction-lib.ts:46-77 | the reaction normaliser; its cases are stated by `ToDbCustom` (missing reaction, line 47; `:name:` and `:name@.:`, lines 59-74), `ToDbHeart` (line 50), `ToDbUnicode` (lines 52-57) and `ToDbUnmatched` (line 76) |
| ReactionLib.ToDbUnicode | packages/backend/src/misc/reaction-lib.ts:52-57 | a reaction other than the suit heart that the emoji pattern matches is stored as the first match, without an emoji row |
| ReactionLib.ToDbUnmatched | packages/backend/src/misc/reaction-lib.ts:59-76 | a reaction that is not the suit heart, not matched by the emoji pattern and not of the form `:name:` or `:name@.:` (so a remote `:name@host:` too) falls back, whatever the emoji table holds |
| NotificationFeed.SkipsOnFullExclusion | packages/backend/src/server/api/endpoints/i/notifications.ts:81-86 | excluding every type skips the query, and (unless includeTypes is present and empty) skipping means every type is excluded |
| NotificationFeed.SpecifiedIds | packages/backend/src/server/api/endpoints/i/notifications.ts:140-148 | the valid note ids are exactly the ids of looked-up notes of specified visibility |
| NotificationFeed.TypeStepFilter | packages/backend/src/server/api/endpoints/i/notifications.ts:116-122 | the type step keeps exactly the wanted types: a non-empty includeTypes decides, else a non-empty excludeTypes, else everything passes |
| NotificationFeed.PlainStepsFilter | packages/backend/src/server/api/endpoints/i/notifications.ts:106-134 | the unread, following, type, host and notifier steps keep exactly what their joint condition accepts, in order |
| NotificationFeed.DirectStepFilter | packages/backend/src/server/api/endpoints/i/notifications.ts:135-152 | the direct step keeps exactly the notifications whose entity is a specified note |
| NotificationFeed.NotificationFilterIsKeep | packages/backend/src/server/api/endpoints/i/notifications.ts:105-155 | the filter closure on any batch is the in-order filter by the keep condition |
| NotificationFeed.UnreadOnlyEmpty | packages/backend/src/server/api/endpoints/i/notifications.ts:107-110 | unreadOnly leaves nothing |
| NotificationFeed.NotificationFilterSound | packages/backend/src/server/api/endpoints/i/notifications.ts:105-155 | the closure returns an order-preserving subsequence of the batch holding exactly the batch's notifications the keep condition accepts |
| NotificationFeed.IncludeOverridesExclude | packages/backend/src/server/api/endpoints/i/notifications.ts:116-122 | a non-empty includeTypes makes excludeTypes irrelevant and keeps only included types |
| NotificationFeed.NoNotifierPassesScreens | packages/backend/src/server/api/endpoints/i/notifications.ts:111-134 | a notification without a notifier passes the host and notifier screens and is dropped under following |
| NotificationFeed.NotificationFilterIdempotent | packages/backend/src/server/api/endpoints/i/notifications.ts:105-155 | running the closure on its own output changes nothing |
| NotificationFeed.ListNotifications | packages/backend/src/server/api/endpoints/i/notifications.ts:81-166 | the endpoint answers [] without a query when includeTypes is empty or every type is excluded; otherwise it returns the scan's first limit notifications, or the scan's error |
| NotificationFeed.ListNotificationsBounded | packages/backend/src/server/api/endpoints/i/notifications.ts:157-165 | for a signed-in viewer the scan succeeds, reads at most 30 partitions, and at most limit notifications are returned |
| NotificationFeed.ListNotificationsKept | packages/backend/src/server/api/endpoints/i/notifications.ts:157-165 | every returned notification is addressed to the viewer and passes the closure |
| NotificationFeed.ListNotificationsNewestFirst | packages/backend/src/server/api/endpoints/i/notifications.ts:157-165 | with the partition in clustering order the answer is newest first |
| NotificationFeed.DecodedRowsKept | packages/backend/src/db/scylla.ts:131-147 | decoded kept rows of the viewer's partition are notifications of the viewer that the closure accepts |
| HybridTimeline.FlagsPointwise | packages/backend/src/server/api/endpoints/notes/hybrid-timeline.ts:156-170 | the five flag predicates together accept a note exactly when the flag rule does |
| HybridTimeline.FlagStepsIsFilter | packages/backend/src/server/api/endpoints/notes/hybrid-timeline.ts:156-170 | the renote, file and hidden steps keep exactly the notes the flag rule accepts, in order |
| HybridTimeline.CommonFilterIsFilter | packages/backend/src/server/api/endpoints/notes/hybrid-timeline.ts:140-172 | `commonFilter` keeps exactly the notes its combined rule accepts, in order |
| HybridTimeline.CommonPointwise | packages/backend/src/server/api/endpoints/notes/hybrid-timeline.ts:140-172 | audience, screens and flags together accept a note exactly when `commonFilter`'s rule does |
| HybridTimeline.HomeClosureIsFilter | packages/backend/src/server/api/endpoints/notes/hybrid-timeline.ts:180 | the home query's closure keeps exactly the notes by the viewer or a followed user that `commonFilter` accepts, in order |
| HybridTimeline.LocalClosureIsFilter | packages/backend/src/server/api/endpoints/notes/hybrid-timeline.ts:183-184 | the local query's closure keeps exactly the notes by anyone else that `commonFilter` accepts, in order |
| HybridTimeline.KeepPointwise | packages/backend/src/server/api/endpoints/notes/hybrid-timeline.ts:131-138 | a note `commonFilter` accepts is kept by exactly one of the two closures |
| HybridTimeline.HomeLocalPartition | packages/backend/src/server/api/endpoints/notes/hybrid-timeline.ts:131-138 | `homeFilter` and `localFilter` split every batch: each note goes to exactly one, and the home side holds only the viewer's and followed users' notes |
| HybridTimeline.OptFilterBare | packages/backend/src/server/api/endpoints/notes/hybrid-timeline.ts:132-133 | `optFilter` fails exactly on a renote without text, files or poll, which is a pure renote |
| HybridTimeline.FlagsMeaning | packages/backend/src/server/api/endpoints/notes/hybrid-timeline.ts:156-170 | each `include*Renotes=false` flag drops only bare renotes (by the viewer, of the viewer's notes, of a local note); `withFiles` demands a file; a hidden note never passes |
| HybridTimeline.ClosuresSplitCommon | packages/backend/src/server/api/endpoints/notes/hybrid-timeline.ts:135-184 | the two closures keep disjoint parts of a batch that together are what `commonFilter` keeps of it |
| HybridTimeline.HybridRound | packages/backend/src/server/api/endpoints/notes/hybrid-timeline.ts:176-189 | one round's two queries, merge, sort and cut compute exactly the specified batch |
| HybridTimeline.HybridBatchWithin | packages/backend/src/server/api/endpoints/notes/hybrid-timeline.ts:176-189 | every note of a round is a decoded row of one of the two tables, stamped non-zero and older than `untilDate` |
| HybridTimeline.HybridBounded | packages/backend/src/server/api/endpoints/notes/hybrid-timeline.ts:174-195 | the hybrid rounds meet what the refetch loop needs to end |
| HybridTimeline.HybridResult | packages/backend/src/server/api/endpoints/notes/hybrid-timeline.ts:96-197 | a disabled local timeline refuses a viewer who is neither admin nor moderator with `STL_DISABLED`; an answer holds at most `limit` notes |
| HybridTimeline.HybridTimelineStore | packages/backend/src/server/api/endpoints/notes/hybrid-timeline.ts:95-198 | the store branch returns exactly the specified answer (corrected behaviour, see "Left out") |
| HybridTimeline.HybridBatchSound | packages/backend/src/server/api/endpoints/notes/hybrid-timeline.ts:176-189 | one round's batch never fails, is newest first, holds at most one and a half times `limit` notes, each older than the cursor and either a home-timeline note of the viewer by the viewer or a followed user or a local note by anyone else, and passes `commonFilter` |
| HybridTimeline.HybridBatch | packages/backend/src/server/api/endpoints/notes/hybrid-timeline.ts:176-189 | one merged batch of home and local rows; `HybridBatchSound` and `HybridBatchesAt` state what it holds |
| HybridTimeline.MergeCut | packages/backend/src/server/api/endpoints/notes/hybrid-timeline.ts:187-189 | merging, sorting newest first and cutting at one and a half times the limit keeps order, the bound and only merged notes |
| HybridTimeline.HomeNoteSound | packages/backend/src/server/api/endpoints/notes/hybrid-timeline.ts:177-182 | a note the home query returns is on the viewer's home timeline, kept by the home closure and older than the cursor |
| HybridTimeline.LocalNoteSound | packages/backend/src/server/api/endpoints/notes/hybrid-timeline.ts:183-185 | a note the local query returns is a local-table note kept by the local closure and older than the cursor |
| HybridTimeline.HybridRoundsOlder | packages/backend/src/server/api/endpoints/notes/hybrid-timeline.ts:174-195 | across the rounds of one request every later note is strictly older, so no note is fetched twice |
| LocalTimeline.LocalPointwise | packages/backend/src/server/api/endpoints/notes/local-timeline.ts:152-185 | audience, optional screens and the shown rule together accept a note exactly when the local rule does |
| LocalTimeline.LocalFilterIsFilter | packages/backend/src/server/api/endpoints/notes/local-timeline.ts:152-185 | the closure keeps exactly the notes the local rule accepts, in order |
| LocalTimeline.AnonymousPass | packages/backend/src/server/api/endpoints/notes/local-timeline.ts:152-185 | for an anonymous viewer the closure keeps exactly the public or home notes outside channels that are not replies to someone else and pass the media flags, whatever the relations and word mutes |
| LocalTimeline.SignedInScreens | packages/backend/src/server/api/endpoints/notes/local-timeline.ts:156-169 | for a signed-in viewer a kept note survives every user, instance, word, block and renote mute of the viewer |
| LocalTimeline.LocalRound | packages/backend/src/server/api/endpoints/notes/local-timeline.ts:189-193 | one round's query, cut to one and a half times the limit, computes exactly the specified batch |
| LocalTimeline.LocalBatchSound | packages/backend/src/server/api/endpoints/notes/local-timeline.ts:189-193 | a round's batch never fails, holds at most one and a half times `limit` notes, each a decoded table row older than the cursor that the closure accepts, and is newest first over a table in clustering order |
| LocalTimeline.LocalPageNote | packages/backend/src/server/api/endpoints/notes/local-timeline.ts:189-192 | every note of the page the query returns is a decoded table row older than the cursor that the closure accepts |
| LocalTimeline.LocalBounded | packages/backend/src/server/api/endpoints/notes/local-timeline.ts:187-197 | the local rounds meet what the refetch loop needs to end |
| LocalTimeline.LocalWithin | packages/backend/src/server/api/endpoints/notes/local-timeline.ts:189-193 | a note of one round is a decoded table row, stamped non-zero and older than `untilDate` |
| LocalTimeline.LocalResult | packages/backend/src/server/api/endpoints/notes/local-timeline.ts:97-200 | a disabled local timeline refuses anonymous viewers and viewers who are neither admin nor moderator with `LTL_DISABLED`; an answer holds at most `limit` notes |
| LocalTimeline.LocalTimelineStore | packages/backend/src/server/api/endpoints/notes/local-timeline.ts:97-200 | the store branch returns exactly the specified answer (corrected behaviour, see "Left out") |
| LocalTimeline.LocalRoundsOlder | packages/backend/src/server/api/endpoints/notes/local-timeline.ts:187-197 | over a table in clustering order, every later note of the request is strictly older, so no note is fetched twice |
| RecommendedTimeline.MuteStepsIsFilter | packages/backend/src/server/api/endpoints/notes/recommended-timeline.ts:165-173 | the signed-in block keeps, in order, exactly the notes the combined mute rule accepts; for an anonymous viewer it keeps all |
| RecommendedTimeline.RecommendedIsFilter | packages/backend/src/server/api/endpoints/notes/recommended-timeline.ts:150-189 | the closure keeps, in order, exactly the notes the recommended rule accepts |
| RecommendedTimeline.RecommendedOnly | packages/backend/src/server/api/endpoints/notes/recommended-timeline.ts:151-187 | only public, remote, non-channel posts of a recommended instance pass, and none by, replying to or renoting a suspended user |
| RecommendedTimeline.AnonymousRecommended | packages/backend/src/server/api/endpoints/notes/recommended-timeline.ts:158-187 | for an anonymous viewer the closure depends on no relation and no word mute: it keeps recommended posts that are not replies to others, involve no suspended user and pass the media flags |
| RecommendedTimeline.SignedInRecommended | packages/backend/src/server/api/endpoints/notes/recommended-timeline.ts:160-173 | for a signed-in viewer the closure also drops posts of muted users and instances, word-muted posts, posts involving blockers or blockees, and renotes by renote-muted users |
| RecommendedTimeline.RecommendedSound | packages/backend/src/server/api/endpoints/notes/recommended-timeline.ts:96-195 | a disabled timeline is refused exactly to viewers who are neither admins nor moderators, and that is the only error; otherwise at most `limit` notes, each a decoded table row older than the cursor that the closure accepts, newest first over a table in clustering order |
| RecommendedTimeline.RecommendedTimelineStore | packages/backend/src/server/api/endpoints/notes/recommended-timeline.ts:96-195 | the endpoint's store branch answers what `RecommendedResult` describes (corrected behaviour of findings 4 and 9, see "Left out") |
| RecommendedTimeline.RecommendedClosureThrows | packages/backend/src/server/api/endpoints/notes/recommended-timeline.ts:150-189 | as written, the closure throws a `TypeError` on every batch, for every viewer and parameter |
| RecommendedTimeline.RecommendedAsWrittenFails | packages/backend/src/server/api/endpoints/notes/recommended-timeline.ts:96-195 | as written, a disabled timeline is refused as before; an enabled one fails with a `TypeError` exactly when the walk reaches a page with rows, and answers `[]` only when it reaches none |
| Refetch.PageNote | packages/backend/src/server/api/endpoints/notes/hybrid-timeline.ts:177-185 | a note of a returned page passes the feed's filter and decodes a table row older than the cursor, under the feed's key |
| Refetch.SlicedNotesKept | packages/backend/src/server/api/endpoints/notes/hybrid-timeline.ts:177-189 | the notes of a page cut by `slice(0, limit)` are decoded table rows older than the cursor that the closure keeps |
| Refetch.SlicedNotesSorted | packages/backend/src/server/api/endpoints/notes/hybrid-timeline.ts:177-189 | outside the list feed and over a table in clustering order, the cut page is newest first |
| Refetch.HalfAgain | packages/backend/src/server/api/endpoints/notes/hybrid-timeline.ts:189 | `limit * 1.5` as `slice` reads it: half again the limit, truncated toward zero |
| Refetch.Cut | packages/backend/src/server/api/endpoints/notes/hybrid-timeline.ts:187-189 | a round's cut is the first `limit * 1.5` notes of the batch, a prefix of it |
| Refetch.NextCursorDrops | packages/backend/src/server/api/endpoints/notes/hybrid-timeline.ts:193-194 | moving the cursor to the oldest note of a full batch leaves fewer notes ahead, so the loop ends |
| Refetch.RoundsStep | packages/backend/src/server/api/endpoints/notes/hybrid-timeline.ts:175-195 | one pass of the loop: an error ends the request, a short batch is the last, a full one moves the cursor to its oldest note |
| Refetch.Refetched | packages/backend/src/server/api/endpoints/notes/hybrid-timeline.ts:174-197 | the answer holds at most `limit` packed notes |
| Refetch.RoundsPackBatches | packages/backend/src/server/api/endpoints/notes/hybrid-timeline.ts:174-197 | without an error the loop's output is each fetched batch packed, in order |
| Refetch.BatchesBelow | packages/backend/src/server/api/endpoints/notes/hybrid-timeline.ts:194 | every note fetched from a set cursor on is older than that cursor |
| Refetch.OlderCons | packages/backend/src/server/api/endpoints/notes/hybrid-timeline.ts:187-194 | a newest-first batch followed by rounds below its oldest note keeps the rounds ordered |
| Refetch.BatchesOlder | packages/backend/src/server/api/endpoints/notes/hybrid-timeline.ts:174-197 | with newest-first batches each round's notes are strictly older than every note of the rounds before it, so no note is fetched twice |
| Refetch.ShortBatchIsLast | packages/backend/src/server/api/endpoints/notes/hybrid-timeline.ts:193 | a first batch shorter than the limit is the only round |
| AntennaNotes.FindAntenna | packages/backend/src/server/api/endpoints/antennas/notes.ts:79-86 | the antenna found has the asked id and belongs to the caller; none is found exactly when no antenna has both |
| AntennaNotes.ResolvedIds | packages/backend/src/server/api/endpoints/antennas/notes.ts:116-133 | at most one id per account, none empty; every account whose lookup gives a truthy id contributes it, and every id comes from some account's lookup |
| AntennaNotes.ResolveUsers | packages/backend/src/server/api/endpoints/antennas/notes.ts:116-133 | the loop over the antenna's accounts pushes exactly the resolved ids, in order |
| AntennaNotes.NormInstances | packages/backend/src/server/api/endpoints/antennas/notes.ts:135-139 | the instance list without empty entries, every entry lowercased: each listed non-empty host appears lowercased and nothing else does |
| AntennaNotes.NormKeywords | packages/backend/src/server/api/endpoints/antennas/notes.ts:141-143 | every kept group is non-empty and holds no empty keyword; each stored group with a non-empty keyword appears with its empty keywords dropped, and nothing else does |
| AntennaNotes.RulesPointwise | packages/backend/src/server/api/endpoints/antennas/notes.ts:160-186 | the `withFile`, source and keyword steps together accept a note exactly when the combined antenna rule does |
| AntennaNotes.RuleStepsIsFilter | packages/backend/src/server/api/endpoints/antennas/notes.ts:160-186 | the three antenna steps, applied one after the other, keep exactly the notes the combined rule accepts, in order |
| AntennaNotes.SourceRules | packages/backend/src/server/api/endpoints/antennas/notes.ts:160-172 | over the full resolved list, the corrected closure of finding 7 (see "Left out"), a "users" antenna keeps exactly posts by resolved ids; an "instances" antenna keeps exactly posts whose author host matches a listed instance up to case, so local posts never pass; `withFile` demands a file; other sources keep everything |
| AntennaNotes.GroupHitNormalised | packages/backend/src/server/api/endpoints/antennas/notes.ts:176-183 | a normalised group is hit exactly when every non-empty keyword of the stored group occurs in the text |
| AntennaNotes.NormKeywordsNonEmpty | packages/backend/src/server/api/endpoints/antennas/notes.ts:141-143 | a non-empty normalised list comes from a stored group with a non-empty keyword |
| AntennaNotes.KeywordHitNormalised | packages/backend/src/server/api/endpoints/antennas/notes.ts:173-185 | the keyword test over the normalised groups holds exactly when some stored group with a non-empty keyword has all its non-empty keywords in the text |
| AntennaNotes.KeywordRules | packages/backend/src/server/api/endpoints/antennas/notes.ts:173-186 | with a usable keyword group a post without text never passes and a post with text passes exactly when some stored group matches; without one the keyword step keeps everything |
| AntennaNotes.ScreensPointwise | packages/backend/src/server/api/endpoints/antennas/notes.ts:145-159 | the six shared screens together accept a note exactly when the combined screen does |
| AntennaNotes.ScreenStepsIsFilter | packages/backend/src/server/api/endpoints/antennas/notes.ts:145-159 | the six shared filters, applied one after the other, keep exactly the notes the combined screen accepts, in order |
| AntennaNotes.AntennaIsFilter | packages/backend/src/server/api/endpoints/antennas/notes.ts:145-189 | the whole closure keeps exactly the notes the antenna pass accepts, in order |
| AntennaNotes.AntennaScreened | packages/backend/src/server/api/endpoints/antennas/notes.ts:145-159 | a passing note is visible to the owner and survives every user, instance, word, block and renote mute of the owner; a post that mentions a suspended user never passes |
| AntennaNotes.SortedSliceKept | packages/backend/src/server/api/endpoints/antennas/notes.ts:191-200 | the sorted, sliced page holds at most `limit` notes, newest first, each a decoded row of the table older than the cursor that the closure keeps |
| AntennaNotes.AntennaReadFails | packages/backend/src/db/scylla.ts:433-436 | the paginated read fails exactly for a "users" antenna (the "list" feed) with no resolved ids, with `Feed list needs userIds` |
| AntennaNotes.AntennaPageSound | packages/backend/src/server/api/endpoints/antennas/notes.ts:191-200 | the read fails only for a "users" antenna without resolved ids; otherwise the page is at most `limit` notes, newest first, each a decoded table row older than the cursor that the closure accepts (corrected closure of finding 7, see "Left out") |
| AntennaNotes.AntennaPage | packages/backend/src/server/api/endpoints/antennas/notes.ts:191-200 | one page of an antenna's feed; `AntennaPageSound` states what it keeps (corrected closures of findings 7 and 10, see "Left out") |
| AntennaNotes.AntennaSound | packages/backend/src/server/api/endpoints/antennas/notes.ts:78-201 | an unknown or foreign antenna gives `NO_SUCH_ANTENNA`; a "users" antenna with no resolvable account gives the list feed's error; nothing else fails, and the answer is a bounded, newest-first page of accepted table rows (corrected closure of finding 7, see "Left out") |
| AntennaNotes.AntennaNotesStore | packages/backend/src/server/api/endpoints/antennas/notes.ts:78-201 | the store branch for a signed-in caller returns exactly the specified answer, packed (corrected behaviour of findings 1, 4, 7 and 10, see "Left out") |
| AntennaNotes.AntennaResult | packages/backend/src/server/api/endpoints/antennas/notes.ts:78-201 | the answer of the store branch; `AntennaSound` states its cases and `AntennaNotesStore` returns exactly it (corrected closures of findings 7 and 10, see "Left out") |
| AntennaNotes.UnlistedAuthorFails | packages/backend/src/server/api/endpoints/antennas/notes.ts:164-166 | a note whose author is not in the list the closure reads never passes a "users" antenna |
| AntennaNotes.PageKeepsNone | packages/backend/src/db/scylla.ts:461-464 | a keyed page whose every row the filter would reject adds nothing to the result |
| AntennaNotes.ListStepKeepsNothing | packages/backend/src/db/scylla.ts:461-502 | a list-feed iteration whose filter rejects every row of the popped user keeps no row, and the ids left stay distinct |
| AntennaNotes.PoolScanKeepsNothing | packages/backend/src/db/scylla.ts:448-510 | a list-feed loop whose filter, on every distinct pool, rejects every row of the user about to be popped keeps no row at all |
| AntennaNotes.AliasedScanKeepsNothing | packages/backend/src/db/scylla.ts:448-510 | with the closure's filters awaited, the whole list-feed loop of a "users" antenna with distinct ids keeps no row: each fetched row is by the user just popped, who is gone from the list the closure reads |
| AntennaNotes.UsersAntennaAwaitedEmpty | packages/backend/src/server/api/endpoints/antennas/notes.ts:160-200 | once the filters of finding 10 are awaited, and otherwise as written, a "users" antenna with distinct resolved ids answers `[]` whatever the table holds, and one without resolved ids fails with `Feed list needs userIds` |
| AntennaNotes.OneAccountAntennaAwaited | packages/backend/src/server/api/endpoints/antennas/notes.ts:116-200 | once the filters of finding 10 are awaited, and otherwise as written, the caller's "users" antenna following one account that resolves to "A" answers `[]` for every table |
| AntennaNotes.AntennaClosureThrows | packages/backend/src/server/api/endpoints/antennas/notes.ts:145-189 | as written, the closure fails with a `TypeError` on every batch: a `filtered.filter` on the Promise of the unawaited filters, or the rejection of the Promise it returns |
| AntennaNotes.AntennaAsWrittenFails | packages/backend/src/server/api/endpoints/antennas/notes.ts:145-200 | as written, a "users" antenna with no resolved id fails with `Feed list needs userIds`; otherwise the read fails with a `TypeError` exactly when the walk reaches a page with rows, and answers `[]` only when it reaches none |
| AntennaNotes.AntennaReadMeetsRow | packages/backend/src/server/api/endpoints/antennas/notes.ts:191-197 | as written, the walk fails as the same walk keeping every row does, or else with a `TypeError` exactly when that walk finds a row; a walk that does not fail found nothing |
| AntennaNotes.ListedAuthorPasses | packages/backend/src/server/api/endpoints/antennas/notes.ts:164-166 | with the full resolved list, a note by a listed user passes exactly when the shared screens and the file and keyword rules accept it |
| AntennaNotes.UsersAntennaComplete | packages/backend/src/server/api/endpoints/antennas/notes.ts:188-194 | corrected: a "users" antenna with resolved ids is read without error and keeps exactly the pages of the users popped, each from the upper bound |
| AntennaNotes.UsersAntennaRowKept | packages/backend/src/server/api/endpoints/antennas/notes.ts:145-186 | corrected: a row of a listed user's page is kept exactly when the shared screens and the file and keyword rules accept it |
| Featured.ScoreDaySound | packages/backend/src/server/api/endpoints/notes/featured.ts:95-97 | the day's query returns decoded table rows of the cursor's UTC day with a positive score |
| Featured.OriginStepIsFilter | packages/backend/src/server/api/endpoints/notes/featured.ts:99-106 | the origin switch keeps exactly the posts the origin rule accepts, in order |
| Featured.MuteStepIsFilter | packages/backend/src/server/api/endpoints/notes/featured.ts:114-121 | the signed-in mute filters keep exactly the posts the combined mute rule accepts, in order; without a viewer nothing is dropped |
| Featured.DayStepsIsFilter | packages/backend/src/server/api/endpoints/notes/featured.ts:99-121 | one day's filters keep exactly the posts the featured rule accepts, in order |
| Featured.FeaturedPassMeaning | packages/backend/src/server/api/endpoints/notes/featured.ts:99-121 | posts of, replying to or renoting a suspended user never pass; "local" keeps only posts without a host and "remote" only posts with one; a signed-in viewer also loses blocked, muted and word-muted posts; an anonymous viewer loses nothing else |
| Featured.DayBatchSound | packages/backend/src/server/api/endpoints/notes/featured.ts:95-121 | each day's batch holds scored table posts of the cursor's day that pass the day filters |
| Featured.DayScanSound | packages/backend/src/server/api/endpoints/notes/featured.ts:93-125 | the scan searches at most `days` days, stops earlier only with at least 30 posts, moves the cursor back one day per day searched, and only appends posts of the days it searched that the batches deliver |
| Featured.FeaturedScan | packages/backend/src/server/api/endpoints/notes/featured.ts:93-125 | the day-by-day scan for featured notes; `FeaturedSound` and `DayScanSound` state its bounds and what it keeps |
| Featured.DayBatchesSound | packages/backend/src/server/api/endpoints/notes/featured.ts:95-121 | every batch post is of its cursor's day and featurable |
| Featured.ScanStep | packages/backend/src/server/api/endpoints/notes/featured.ts:93-125 | while fewer than 30 posts are found and days remain, one turn searches the cursor's day and moves back a day; otherwise the state stays |
| Featured.ScanFromNow | packages/backend/src/server/api/endpoints/notes/featured.ts:71-125 | from nothing found at `now` the scan is bounded and every post it collects is featurable and of the last `days` UTC days |
| Featured.ScanAnswerSound | packages/backend/src/server/api/endpoints/notes/featured.ts:93-130 | the scan is bounded and the sorted, sliced answer is newest first, holds at most `limit` posts, each a featurable post of the last `days` UTC days |
| Featured.SliceAnswer | packages/backend/src/server/api/endpoints/notes/featured.ts:128-130 | sorting newest first and slicing at `offset` keeps order, respects the limit and keeps only collected posts |
| Featured.FeaturedSound | packages/backend/src/server/api/endpoints/notes/featured.ts:63-133 | the scan searches at most `days` days, fewer only once 30 posts are found; the answer is newest first and holds at most `limit` posts, each a scored post of the last `days` UTC days that passes the day filters |
| Featured.FeaturedAnswerSound | packages/backend/src/server/api/endpoints/notes/featured.ts:93-130 | over the day batches the scan is bounded and the sliced answer meets the answer conditions |
| Featured.DayRound | packages/backend/src/server/api/endpoints/notes/featured.ts:95-121 | one iteration's query and filters compute exactly the day's batch |
| Featured.CollectFeatured | packages/backend/src/server/api/endpoints/notes/featured.ts:71-125 | the endpoint's loop computes exactly the specified scan's posts, with the filters awaited (finding 8, see "Left out") |
| Featured.CollectDays | packages/backend/src/server/api/endpoints/notes/featured.ts:93-125 | the `while` loop, run against any batch function that agrees with the day rounds, ends with exactly the posts the day scan collects from `now` |
| Featured.FeaturedStore | packages/backend/src/server/api/endpoints/notes/featured.ts:63-133 | the store branch returns exactly the packed specified answer (corrected behaviour of findings 4 and 8, see "Left out") |
| Featured.FeaturedAsWrittenFails | packages/backend/src/server/api/endpoints/notes/featured.ts:93-125 | as written, every request (`days` is at least 1) fails with a `TypeError` in the first iteration, when `push(...notes)` spreads the Promise of the unawaited filters |
| ReplyTree.Root | packages/backend/src/server/api/common/getters.ts:17-35 | the root found has the asked id, is stored and visible to the viewer; with no stored row of that id there is none |
| ReplyTree.RepliesSound | packages/backend/src/server/api/endpoints/notes/children.ts:62-68 | every reply the by-reply-id select returns is a stored note replying to the asked id |
| ReplyTree.RepliesComplete | packages/backend/src/server/api/endpoints/notes/children.ts:62-68 | every stored row replying to the asked id is among the replies returned |
| ReplyTree.ReplyLookupSound | packages/backend/src/server/api/endpoints/notes/children.ts:62-68 | the lookup only returns replies of the asked note, drawn from the table |
| ReplyTree.WalkStep | packages/backend/src/server/api/endpoints/notes/children.ts:55-74 | while the loop condition holds, one turn expands the queue's head; once it fails the state stays as it is |
| ReplyTree.StartInv | packages/backend/src/server/api/endpoints/notes/children.ts:51-53 | the starting state (queue `[root]`, nothing found, depth 0) keeps the queue discipline |
| ReplyTree.QueueShift | packages/backend/src/server/api/endpoints/notes/children.ts:60-70 | shifting the queue's head while the replies are pushed onto both the queue and the found list keeps the queue the unexpanded tail of root-plus-found |
| ReplyTree.DoneSnoc | packages/backend/src/server/api/endpoints/notes/children.ts:60-71 | dequeuing one more note appends its replies to what was collected, and counts one more expansion exactly when it had replies |
| ReplyTree.ExpandKeeps | packages/backend/src/server/api/endpoints/notes/children.ts:60-72 | one iteration keeps the queue discipline: the dequeued notes are root followed by found replies, found is their replies in order, and the depth counts those with replies |
| ReplyTree.RunWalkSound | packages/backend/src/server/api/endpoints/notes/children.ts:55-74 | the loop keeps the queue discipline, stops only with the queue empty, `limit` replies found or the depth reached, never counts past the depth and only adds to what was found |
| ReplyTree.RunWalk | packages/backend/src/server/api/endpoints/notes/children.ts:55-74 | the breadth-first walk of replies; `RunWalkSound`, `WalkSound` and `WalkAnswerSound` state what it finds |
| ReplyTree.ExpandedDrawn | packages/backend/src/server/api/endpoints/notes/children.ts:62-70 | every collected reply is a note of the table |
| ReplyTree.ExpandedOrder | packages/backend/src/server/api/endpoints/notes/children.ts:60-70 | the i-th collected reply replies to one of the first i + 1 dequeued notes |
| ReplyTree.ExpandedBefore | packages/backend/src/server/api/endpoints/notes/children.ts:60-70 | each collected reply replies to the root or to a reply collected before it |
| ReplyTree.WalkSound | packages/backend/src/server/api/endpoints/notes/children.ts:51-74 | the walk from a root ends with the queue empty, `limit` replies found or `depth` expansions made, never more than `depth`, and keeps the queue discipline |
| ReplyTree.ThreadedPrefix | packages/backend/src/server/api/endpoints/notes/children.ts:76 | a prefix of a threaded list is threaded |
| ReplyTree.FoundThreaded | packages/backend/src/server/api/endpoints/notes/children.ts:60-70 | under the queue discipline the collected replies are threaded below the root and drawn from the table |
| ReplyTree.SlicedFound | packages/backend/src/server/api/endpoints/notes/children.ts:76 | the first `limit` collected replies are a threaded answer of at most `limit` stored notes |
| ReplyTree.WalkAnswerSound | packages/backend/src/server/api/endpoints/notes/children.ts:55-76 | from a disciplined state, the first `limit` replies the loop collects form a threaded answer |
| ReplyTree.ThreadWalkAnswer | packages/backend/src/server/api/endpoints/notes/children.ts:51-76 | the first `limit` replies the walk from the root collects form a threaded answer |
| ReplyTree.ChildrenSound | packages/backend/src/server/api/endpoints/notes/children.ts:44-80 | without a visible root the answer is empty; otherwise it holds at most `limit` stored notes, each replying to the root or to a reply before it in the answer |
| ReplyTree.RepliesQuery | packages/backend/src/server/api/endpoints/notes/children.ts:62-68 | the query returns exactly the decoded replies of the asked note |
| ReplyTree.WalkReplies | packages/backend/src/server/api/endpoints/notes/children.ts:51-74 | the endpoint's loop computes exactly the walk's collected replies |
| ReplyTree.ChildrenStore | packages/backend/src/server/api/endpoints/notes/children.ts:44-80 | the store branch returns exactly the packed specified answer |
| UriSplit.Break | packages/client/src/scripts/parse-uri.ts:9 | a greedy run `[^stop]*` and what follows it: the two parts concatenate to the input, the run holds no stop character and the rest is empty or starts with one |
| UriSplit.BreakOf | packages/client/src/scripts/parse-uri.ts:9 | the greedy run is unique: a stop-free prefix followed by nothing or a stop character is exactly where `Break` cuts |
| UriSplit.Lead | packages/client/src/scripts/parse-uri.ts:9 | an optional group `(c[^stop]*)?`: taken exactly when the text starts with `c`, then maximal; group and rest concatenate to the input |
| UriSplit.LeadComplete | packages/client/src/scripts/parse-uri.ts:9 | the optional group gives back exactly a group and rest of the allowed shapes |
| UriSplit.SplitTailSound | packages/client/src/scripts/parse-uri.ts:9 | after the authority, the path starts with `/` and has no `?#`, the query starts with `?` and has no `#`, the rest is empty or starts with `#`, and together they spell the input |
| UriSplit.SplitTailComplete | packages/client/src/scripts/parse-uri.ts:9 | a path, query and rest of those shapes are split back apart unchanged |
| UriSplit.NoDoubleSlash | packages/client/src/scripts/parse-uri.ts:22 | without `//`, the path built from the would-be authority and group 4 has no `?#` and does not start with `//` |
| UriSplit.ParseBodySound | packages/client/src/scripts/parse-uri.ts:8-25 | the components built after `scheme:` are well shaped, carry an authority exactly when `//` was seen, and spell the body back; a failure is `Invalid URL format` |
| UriSplit.ParseAfterColon | packages/client/src/scripts/parse-uri.ts:9-25 | the text after the scheme's colon is parsed with an authority exactly when it starts with `//`, and composes back to `scheme:` plus that text |
| UriSplit.ParseUriSound | packages/client/src/scripts/parse-uri.ts:8-25 | every result of `parseUri` is well shaped and composes back to the input, with an authority exactly when `//` follows the colon; every failure is the thrown `Invalid URL format` |
| UriSplit.ParseUri | packages/client/src/scripts/parse-uri.ts:8-25 | the URI splitter; `ParseUriSound`, `ParseUriComplete` and `ParseUriFails` state that it inverts composition and fails exactly on URIs no well-shaped split composes to |
| UriSplit.AuthorityFirst | packages/client/src/scripts/parse-uri.ts:9 | behind `//` the authority group runs to the first `/`, `?` or `#` |
| UriSplit.AuthorityInPath | packages/client/src/scripts/parse-uri.ts:9-22 | without `//`, group 3 takes the path up to its first `/` and group 4 the rest, so the path is rebuilt as given |
| UriSplit.ParseBodyComplete | packages/client/src/scripts/parse-uri.ts:9-25 | every well-shaped set of components is recovered from its body text |
| UriSplit.NoAuthorityNoSlashes | packages/client/src/scripts/parse-uri.ts:9 | components without an authority compose to a text whose part after the colon does not start with `//`, so `(\/\/)?` does not match there |
| UriSplit.ParseUriComplete | packages/client/src/scripts/parse-uri.ts:8-25 | `parseUri` of the composition of well-shaped components returns exactly those components (round trip) |
| UriSplit.ParseUriFails | packages/client/src/scripts/parse-uri.ts:12-14 | `parseUri` throws exactly on the strings that no well-shaped components compose to |

## Left out

- The relational (TypeORM/SQL) branches of every endpoint and service are not modelled: the query builders, `makePaginationQuery` and `generate*Query` are calls into a foreign library. Where a relational path is modelled, it is followed only as far as the data it writes: `PollVoting.RelationalVote`, `QuestionRelational` and the `read` flag in `Notifying`.
- The Cassandra driver, the Redis connection and msgpack transport are I/O. Query templates become lookups and updates on in-memory tables keyed like the store's, and Redis becomes `Caches.Redis`, a map with a TTL clock.
- The cached `COUNT` queries and their TTL in the driver set-up are part of that plumbing, so they are not modelled.
- `Caches.Transaction.Exec`: a transaction models only the cache writes queued on it, and one cache per `exec`; other commands in the same `multi()` and their replies are not modelled.
- `Cache.getAll` and its `KEYS` scan are not modelled; no modelled operation calls them.
- Side effects are recorded only as the value handed on, never performed: stream publishing, federation delivery, `renderActivity`, charts, search indexing, push and email, and the delayed unread event.
- Concurrency is not modelled. `Promise.all` and the un-awaited per-copy writes run one after another, and no atomicity claim is made.
- These are function parameters whose behaviour is not modelled: `getTimestamp`, `genId`, `normalizeForSearch`, `Notes.packMany` (the `pack` parameter), account resolution in the antenna "users" source, date parsing in `UserMutingsCache`, the emoji regex, `EmojiCache`, punycode, and the fallback reaction.
- RE2 is a parameter returning match, no match or a throw. Which patterns it accepts is not modelled.
- The clock is a parameter `now`. The time zone of the server is modelled only in the timeline finding, as a fixed offset from UTC.
- `Common.Lower`: models `toLowerCase` on ASCII letters only. Unicode case mapping is not modelled.
- `Common.Trim`: models the whitespace set of JavaScript `trim` as a fixed character set. The contract states only that the result is no longer than the input.
- Integer width is not modelled: counters, timestamps and limits are unbounded integers. In `NoteDelete`, NaN cannot occur, so the NaN check of `Math.max(v - 1, 0)` is not modelled.
- `Pagination.Paginate`: requires `queryLimit > 0`. With a configured limit of 0 the store loop would not advance, and the configuration is outside the model.
- `Refetch`, `HybridTimeline.HybridBounded` and `LocalTimeline.LocalBounded`: proved for tables whose rows have a non-zero `createdAt`. An `untilDate` of 0 reads as "no cursor", so a note stamped at the epoch would restart the walk.
- Three store branches call the `async` filters of `db/scylla.ts` without `await`: `notes/featured.ts:108-121`, `notes/recommended-timeline.ts:158-172` and `antennas/notes.ts:146-159`. Several of these calls also leave out the `user` argument, so every later argument lands one slot early: `featured.ts:108` and `:115`, `recommended-timeline.ts:160` and `:166`, and `antennas/notes.ts:148` and `:154`. The `user` argument is also missing at `recommended-timeline.ts:172` and `antennas/notes.ts:159`. Each filter then returns a Promise. The next synchronous step throws a `TypeError`: `push(...notes)` at `featured.ts:123`, `filtered.filter` at `recommended-timeline.ts:175-187` and at `antennas/notes.ts:161-174`, or else the rejection of the returned Promise. These are findings 8 to 10. The forms as written are `Featured.FeaturedAsWritten`, `RecommendedTimeline.RecommendedNotesAsWritten` and `AntennaNotes.AntennaNotesAsWritten`. The endpoint models and the lemmas about them call the filters awaited, with the viewer in the `user` slot. The lines below name each such member.
- `HybridTimeline.HybridBatch`: `notes/hybrid-timeline.ts:177` and `:183` read through `execNotePaginationQuery`, whose definition is not part of this model; the model reads through `Pagination.Paginate` in its place. `filterBlockedUser` is called only by `notes/global-timeline.ts:131`, an endpoint this model does not cover.
- `UserNotes`: the early-empty check is modelled as written only for a signed-in viewer. For an anonymous viewer it reads relation lists that were never loaded; this is finding 5.
- Request parameters that a store branch never reads are left out of that endpoint's parameter record.
- `HashtagTrend`: the relational chart queries and the rounding of `now` to a chart span are not modelled. In the store path the chart is always `[]`, and the model returns exactly that.
- `HashtagIndex.UsertagsSound` and `HashtagTrend.UsersOf`: assume tag names already normalised, because `normalizeForSearch` is a parameter.
- `HashtagIndex`: the `MINID` trim of the trend stream on `xadd` is not modelled; the stream only grows.
- `ReactionLib`: `convertReactions` returns a map, so the insertion order of the result object's keys is not modelled.
- `NoteDelete.Cascade`: `findCascadingNotes` recurses without a bound. The model carries a depth bound, the number of stored notes, and `CascadeReaches` proves that the bound never cuts a reply/quote chain short. On a table holding a reply cycle the source would recurse forever, while the model stops.
- `Featured`: the day query `notes_by_date` with the score filter is modelled as a filter over the `rows` table.
- `ReplyTree`: replies found by the walk are not run through the visibility filter, as in the source; only the root is.
- `AntennaNotes`: a source kind other than "users" and "instances" (`OtherSource`) keeps every post, as the source's fall-through does.
- `NotificationFeed`: the list of notification types is taken as a constant here, since its source file is not part of this model.
- `ApRenderer`: MFM-to-HTML conversion, language detection, emoji and tag collection are outside the model. The note text is carried as given.
- `ApRenderer`, `Notifying` and `UserNotes`: users, files and notes are looked up in maps passed as parameters, in place of the store lookups `getUser` and `DriveFiles`.
- `WordMute.CheckWordMute`: models the corrected matching of finding 4 (a blank between the note's own text and the previews, `MuteText`). The text as written is `MuteTextAsWritten`, and `GlueMutesAsWritten` shows the difference.
- `WordMute.GetWordHardMute`: matches against the corrected `MuteText` of finding 4, as `CheckWordMute` does.
- `NoteFilters.FilterMutedNote`: calls the corrected `GetWordHardMute`, so it models the corrected matching of finding 4.
- `LocalTimeline.LocalTimelineStore`: filters word mutes with the corrected matching of finding 4, through `NoteFilters.FilterMutedNote`.
- `HybridTimeline.HybridTimelineStore`: filters word mutes with the corrected matching of finding 4, through `NoteFilters.FilterMutedNote`.
- `RecommendedTimeline.RecommendedTimelineStore`: filters word mutes with the corrected matching of finding 4, through `NoteFilters.FilterMutedNote`, and runs the corrected closure of finding 9 (filters awaited, the viewer in their `user` slot); as written the closure throws a `TypeError` on every batch (`RecommendedClosureThrows`, `RecommendedAsWrittenFails`).
- `RecommendedTimeline.MuteStepsIsFilter`: is stated of the corrected closure of finding 9 (filters awaited, the viewer in their `user` slot); as written the closure throws a `TypeError` on every batch (`RecommendedClosureThrows`, `RecommendedAsWrittenFails`).
- `RecommendedTimeline.RecommendedIsFilter`: is stated of the corrected closure of finding 9 (filters awaited, the viewer in their `user` slot); as written the closure throws a `TypeError` on every batch (`RecommendedClosureThrows`, `RecommendedAsWrittenFails`).
- `RecommendedTimeline.RecommendedOnly`: is stated of the corrected closure of finding 9 (filters awaited, the viewer in their `user` slot); as written the closure throws a `TypeError` on every batch (`RecommendedClosureThrows`, `RecommendedAsWrittenFails`).
- `RecommendedTimeline.AnonymousRecommended`: is stated of the corrected closure of finding 9 (filters awaited, the viewer in their `user` slot); as written the closure throws a `TypeError` on every batch (`RecommendedClosureThrows`, `RecommendedAsWrittenFails`).
- `RecommendedTimeline.SignedInRecommended`: is stated of the corrected closure of finding 9 (filters awaited, the viewer in their `user` slot); as written the closure throws a `TypeError` on every batch (`RecommendedClosureThrows`, `RecommendedAsWrittenFails`).
- `RecommendedTimeline.RecommendedSound`: is stated of the corrected closure of finding 9 (filters awaited, the viewer in their `user` slot); as written the closure throws a `TypeError` on every batch (`RecommendedClosureThrows`, `RecommendedAsWrittenFails`).
- `Featured.FeaturedStore`: filters word mutes with the corrected matching of finding 4, through `NoteFilters.FilterMutedNote`, and runs the corrected loop of finding 8 (filters awaited, the viewer in their `user` slot); as written every request fails with a `TypeError` (`FeaturedAsWrittenFails`).
- `Featured.MuteStepIsFilter`: is stated of the corrected loop of finding 8 (filters awaited, the viewer in their `user` slot); as written every request fails with a `TypeError` (`FeaturedAsWrittenFails`).
- `Featured.DayStepsIsFilter`: is stated of the corrected loop of finding 8 (filters awaited, the viewer in their `user` slot); as written every request fails with a `TypeError` (`FeaturedAsWrittenFails`).
- `Featured.FeaturedPassMeaning`: is stated of the corrected loop of finding 8 (filters awaited, the viewer in their `user` slot); as written every request fails with a `TypeError` (`FeaturedAsWrittenFails`).
- `Featured.DayBatchSound`: is stated of the corrected loop of finding 8 (filters awaited, the viewer in their `user` slot); as written every request fails with a `TypeError` (`FeaturedAsWrittenFails`).
- `Featured.FeaturedSound`: is stated of the corrected loop of finding 8 (filters awaited, the viewer in their `user` slot); as written every request fails with a `TypeError` (`FeaturedAsWrittenFails`).
- `Featured.DayRound`: runs the corrected loop of finding 8 (filters awaited, the viewer in their `user` slot); as written every request fails with a `TypeError` (`FeaturedAsWrittenFails`).
- `Featured.CollectFeatured`: runs the corrected loop of finding 8 (filters awaited, the viewer in their `user` slot); as written every request fails with a `TypeError` (`FeaturedAsWrittenFails`).
- `Pagination.Paginate`: the list feed restarts every user from the request's upper bound, the corrected walk of finding 1. The walk as written is `PaginateAsWritten` (the plan with `resetPerUser` false), and `ListCursorCarriesOver` shows the difference.
- `Pagination.ExecPaginationQuery`: runs the corrected walk of finding 1, as `Paginate` describes it.
- `AntennaNotes.AntennaNotesStore`: a "users" antenna is read through the corrected list walk of finding 1, and its word mutes with the matching of finding 4. Its closure tests authors against the full resolved list, the corrected closure of finding 7; as written, `{ ...ps, userIds }` shares the closure's `userIds` array with `execPaginationQuery`, whose `pop()` removes each user before the closure sees that user's page. The aliasing, with the filters awaited, is `AntennaNotesAwaited` over `AliasedScan`. It also runs the corrected closure of finding 10 (filters awaited, the viewer in their `user` slot); as written the closure fails with a `TypeError` on every batch (`AntennaClosureThrows`, `AntennaAsWrittenFails`).
- `AntennaNotes.ScreenStepsIsFilter`: is stated of the corrected closure of finding 10 (filters awaited, the viewer in their `user` slot); as written the closure fails with a `TypeError` on every batch (`AntennaClosureThrows`, `AntennaAsWrittenFails`).
- `AntennaNotes.AntennaIsFilter`: is stated of the corrected closure of finding 10 (filters awaited, the viewer in their `user` slot); as written the closure fails with a `TypeError` on every batch (`AntennaClosureThrows`, `AntennaAsWrittenFails`).
- `AntennaNotes.AntennaScreened`: is stated of the corrected closure of finding 10 (filters awaited, the viewer in their `user` slot); as written the closure fails with a `TypeError` on every batch (`AntennaClosureThrows`, `AntennaAsWrittenFails`).
- `AntennaNotes.SourceRules`: states the users rule over the full resolved list, the corrected closure of finding 7. As written the rule reads the list after the pop (`AliasedFeeds`).
- `AntennaNotes.AntennaPage`: reads a "users" antenna with the corrected closure of finding 7. That read with only the aliasing of finding 7 left in is `AntennaPageAwaited`. It also runs the corrected closure of finding 10 (filters awaited, the viewer in their `user` slot); as written the closure fails with a `TypeError` on every batch (`AntennaClosureThrows`, `AntennaAsWrittenFails`).
- `AntennaNotes.AntennaPageSound`: is stated of `AntennaPage`, the corrected read of finding 7. With the filters awaited and the aliasing left in, a "users" antenna with distinct ids answers `[]` (`UsersAntennaAwaitedEmpty`). It is also stated of the corrected closure of finding 10 (filters awaited, the viewer in their `user` slot); as written the closure fails with a `TypeError` on every batch (`AntennaClosureThrows`, `AntennaAsWrittenFails`).
- `AntennaNotes.AntennaSound`: is stated of the corrected read of finding 7, like `AntennaPageSound`, and of the corrected closure of finding 10 (filters awaited, the viewer in their `user` slot); as written the closure fails with a `TypeError` on every batch (`AntennaClosureThrows`, `AntennaAsWrittenFails`).
- `AntennaNotes.AntennaResult`: packs the corrected read of finding 7, with the corrected closure of finding 10 (filters awaited, the viewer in their `user` slot); as written the closure fails with a `TypeError` on every batch (`AntennaClosureThrows`, `AntennaAsWrittenFails`).
- `NoteDelete.NoteStore.Delete`: delivers the corrected `CascadeDeliveries` of finding 3, one tombstone per cascaded note. The loop as written is `CascadeDeliveriesAsWritten`, and `CascadeExample` shows the difference.
- `UserNotes.UserNotesNotes`: uses the corrected word-mute loader of finding 6 (`LoadedWords`, the viewer's mutes). The loader as written is `LoadedWordsAsWritten`.
- `UserNotes.UserNotesStore`: uses the corrected early check of finding 5 (`EarlyEmpty`), the corrected loader of finding 6 and the word-mute matching of finding 4. The forms as written are `EarlyEmptyAsWritten` and `LoadedWordsAsWritten`.
- `HomeTimeline.TimelineStore`: the sweep steps back by the last millisecond of the previous UTC day, the corrected cursor of finding 2 (`EndOfPreviousDay`). The cursor as written is `LocalEndOfPreviousDay`, used by `TimelineFoundAsWritten`.
- `ApQuestion.ExtractPoll`: `isQuestion` is not part of this model's sources, so it is taken as `type == "Question"`. A poll carried by an object of another type, which that test may also accept, is refused here.

## Findings

| source | as written | input that shows it | evidently intended | confidence | as-written member | corrected member |
|---|---|---|---|---|---|---|
| packages/backend/src/db/scylla.ts:462-465 | the list feed pops one user per round but keeps the cursor that the previous user's last row left behind (lines 481-502), so each later user is queried only below it | followed users "A" with a note at 200 and "B" with a note at 100, `limit` 1, upper bound 1000: the result is only B's note | every user's notes are searched from the request's upper bound | not executed | PaginationProofs.ListCursorCarriesOver (on Pagination.PaginateAsWritten) | Pagination.Paginate, with PaginationProofs.PaginateListComplete |
| packages/backend/src/server/api/endpoints/notes/timeline.ts:102-110 | the cursor for "the previous day" is built with `new Date(y, m, d - 1, 23, 59, 59, 999)` from the UTC date parts, which the constructor reads in the server's local zone | a server west of UTC and a viewer whose own note lies after the UTC end of the previous day: the scan returns a note newer than the cursor it has just set | the last millisecond of the previous UTC day, as `scylla.ts` computes it | not executed | HomeTimeline.WestOfUtcReturnsNewer (on HomeTimeline.TimelineFoundAsWritten and HomeTimeline.LocalCursorOffByZone) | HomeTimeline.WestOfUtcCorrected, with HomeTimeline.TimelineSound |
| packages/backend/src/services/note/delete.ts:199 | cascade deletes are delivered only when `cascadingNote.user` is set, yet notes decoded from the store always have `user` null (scylla.ts:282) | deleting a note that has one local reply: the reply is found, but no Delete activity for it is delivered | every local cascaded note is delivered to its author's audience | not executed | NoteDelete.CascadeExample (on NoteDelete.CascadeDeliveriesAsWritten) | NoteDelete.CascadeDeliveries |
| packages/backend/src/misc/check-word-mute.ts:30-43 | the note's own text and the text of the reply or renote are joined with no separator, so a word can be formed across the boundary | text "ab" replying to a note with cw "c": the keyword "bc" mutes the post | the parts are joined with a space, as the other parts are | not executed | WordMute.GlueMutesAsWritten (on WordMute.MuteTextAsWritten) | WordMute.GlueDoesNotMute (on WordMute.MuteText) |
| packages/backend/src/server/api/endpoints/users/notes.ts:128-134 | the muted/blocked check reads relation lists that are loaded only for a signed-in viewer, so an anonymous request raises a TypeError | any request without a viewer | an anonymous viewer mutes and is blocked by no one, so the feed is returned | not executed | UserNotes.AnonymousViewerFails (on UserNotes.EarlyEmptyAsWritten) | UserNotes.AnonymousReachesFeed (on UserNotes.EarlyEmpty) |
| packages/backend/src/server/api/endpoints/users/notes.ts:114-121 | the word mutes are loaded from the profile of the user being listed (`userId: user.id`, where `user` is that target) rather than the viewer's | viewer "a" mutes "x", target "b" mutes nothing: no post of "b" is word-muted for "a" | the viewer's own word mutes apply, as in every other endpoint | not executed | UserNotes.TargetWordsReplaceViewers (on UserNotes.LoadedWordsAsWritten) | UserNotes.ViewerWordsApply (on UserNotes.LoadedWords) |
| packages/backend/src/server/api/endpoints/antennas/notes.ts:164-166 | once the filters of finding 10 are awaited, the "users" rule tests `userIds.includes(note.userId)` on the array passed as `{ ...ps, userIds }` (line 194); `execPaginationQuery` pops each user off that same array (scylla.ts:463) before the closure runs on that user's page (scylla.ts:496-498), so the user whose page it is has already left the array | a "users" antenna following one account that resolves to "A", with a public note by "A" older than the cursor: with the filters awaited the answer is `[]`, as it is for every "users" antenna whose ids are distinct | a note by any account the antenna follows passes the users rule | not executed | AntennaNotes.OneAccountAntennaAwaited and AntennaNotes.UsersAntennaAwaitedEmpty (on AntennaNotes.AntennaPageAwaited) | AntennaNotes.UsersAntennaRowKept and AntennaNotes.UsersAntennaComplete (on AntennaNotes.AntennaPage) |
| packages/backend/src/server/api/endpoints/notes/featured.ts:108-123 | `filterBlockUser`, `filterMutedUser` and `filterMutedNote` are `async` but are called without `await`, and the first two without their `user` argument, so `notes` holds a Promise; `foundNotes.push(...notes)` spreads it, which throws a `TypeError` (a Promise is not iterable) | any request: `days` has minimum 1, so the first iteration always runs and throws | each day's posts are filtered by the awaited filters, called with the viewer, and collected | not executed | Featured.FeaturedAsWrittenFails (on Featured.FeaturedAsWritten and Featured.DayRoundAsWritten) | Featured.FeaturedSound and Featured.CollectFeatured (on Featured.FeaturedNotes and Featured.DayRound) |
| packages/backend/src/server/api/endpoints/notes/recommended-timeline.ts:158-187 | `filterReply`, `filterVisibility`, `filterBlockUser` and, for a signed-in viewer, the three mute filters are called without `await`, several without their `user` argument, so `filtered` holds a Promise; the `filtered.filter` of line 187 (or of 175, 178 or 183 before it) throws a `TypeError` | an enabled timeline whose first page has a recommended row: the closure runs on that page and throws, so the request fails | the closure filters each page with the awaited filters, called with the viewer | not executed | RecommendedTimeline.RecommendedAsWrittenFails and RecommendedTimeline.RecommendedClosureThrows (on RecommendedTimeline.RecommendedNotesAsWritten and RecommendedTimeline.RecommendedClosureAsWritten) | RecommendedTimeline.RecommendedSound and RecommendedTimeline.RecommendedIsFilter (on RecommendedTimeline.RecommendedNotes) |
| packages/backend/src/server/api/endpoints/antennas/notes.ts:146-174 | the six filters of lines 146-159 are called without `await`, three without their `user` argument, so `filtered` holds a Promise; the `filtered.filter` of line 161, 165, 168 or 174 throws a `TypeError`, and without any of them the closure returns a Promise that rejects, because `filterMutedRenotes` calls `notes.filter` on the Promise it was given | an "instances" antenna whose first page has a row: the closure runs on that page and throws, so the request fails | the closure filters each page with the awaited filters, called with the caller | not executed | AntennaNotes.AntennaAsWrittenFails and AntennaNotes.AntennaClosureThrows (on AntennaNotes.AntennaNotesAsWritten, AntennaNotes.AntennaPageAsWritten and AntennaNotes.AntennaClosureAsWritten) | AntennaNotes.AntennaSound, AntennaNotes.AntennaPageSound and AntennaNotes.AntennaIsFilter (on AntennaNotes.AntennaPage) |

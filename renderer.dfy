/**
 * The ActivityPub renderers for notes and questions
 * (`remote/activitypub/renderer/note.ts`, `renderer/question.ts`). The
 * database reads they make (the replied-to note, the renoted note, the
 * drive files, the poll row and the poll's votes) are given as arguments;
 * HTML conversion, language detection and the tag list are not modelled,
 * so `content` is the markdown source handed to `toHtml`.
 */
module ApRenderer {
  import opened Common
  import opened ScyllaRows
  import opened PollVotes
  import opened ApQuestion
  import opened PollVoting

  const PublicCollection: string := "https://www.w3.org/ns/activitystreams#Public"
  /** `String.fromCharCode(0x200b)` */
  const ZeroWidthSpace: string := "\U{200B}"

  /** The poll a renderer works from: the store's poll inside the note, or the `poll` table row. */
  datatype PollSource = StorePoll(poll: Poll) | TablePoll(record: PollRecord)

  function Multiple(p: PollSource): bool {
    if p.StorePoll? then p.poll.multiple else p.record.multiple
  }

  function ExpiresAt(p: PollSource): Option<int> {
    if p.StorePoll? then p.poll.expiresAt else p.record.expiresAt
  }

  function EntryText(e: (int, string)): string { e.1 }

  /** The choice texts in the order the renderer emits them. */
  function ChoiceTexts(p: PollSource): seq<string> {
    if p.StorePoll? then MapSeq(p.poll.choices, EntryText) else p.record.choices
  }

  /**
   * The vote count a reader of the rendered poll takes for choice `i`: on
   * the store path the number of votes holding the choice's index, on the
   * relational path the row's counter (a missing counter reads as 0).
   */
  function CountAt(p: PollSource, votes: seq<Vote>, i: nat): int
    requires i < |ChoiceTexts(p)|
  {
    if p.StorePoll? then Holding(votes, p.poll.choices[i].0)
    else if i < |p.record.votes| then p.record.votes[i] else 0
  }

  function StoreChoice(votes: seq<Vote>): ((int, string)) -> ApChoice {
    (e: (int, string)) => ApChoice(e.1, Some(Tally(votes, e.0)), None)
  }

  /**
   * The `choices` both renderers build: on the store path one entry per key
   * of `poll.choices`, counting the votes whose set holds that key; on the
   * relational path `votes[i]` for choice `i`.
   */
  function RenderChoices(p: PollSource, votes: seq<Vote>): (r: seq<ApChoice>)
    ensures |r| == |ChoiceTexts(p)|
    ensures forall i :: 0 <= i < |r| ==> r[i].name == ChoiceTexts(p)[i] && r[i].misskeyVotes.None?
    ensures p.StorePoll? ==> forall i :: 0 <= i < |r| ==> r[i].totalItems == Some(Tally(votes, p.poll.choices[i].0))
    ensures p.TablePoll? ==> forall i :: 0 <= i < |r| ==>
              r[i].totalItems == if i < |p.record.votes| then Some(p.record.votes[i]) else None
  {
    if p.StorePoll? then MapSeq(p.poll.choices, StoreChoice(votes))
    else
      var c := p.record.choices;
      var v := p.record.votes;
      seq(|c|, i requires 0 <= i < |c| => ApChoice(c[i], if i < |v| then Some(v[i]) else None, None))
  }

  // ---------------------------------------------------------------------
  // Tallies

  /** The number of votes whose choice set holds `index`, counted one vote at a time. */
  function Holding(votes: seq<Vote>, index: int): nat
    decreases |votes|
  {
    if |votes| == 0 then 0
    else (if index in votes[0].choice then 1 else 0) + Holding(votes[1..], index)
  }

  /** The store-path tally counts exactly the votes whose choice set holds the index. */
  lemma {:induction false} TallyIsHolding(votes: seq<Vote>, index: int)
    ensures Tally(votes, index) == Holding(votes, index)
    decreases |votes|
  {
    if |votes| > 0 {
      TallyIsHolding(votes[1..], index);
      TallyAppend([votes[0]], votes[1..], index);
      assert votes == [votes[0]] + votes[1..];
    }
  }

  /** Reading the rendered choices back gives each choice's count. */
  lemma RenderedCounts(p: PollSource, votes: seq<Vote>, i: nat)
    requires i < |ChoiceTexts(p)|
    ensures CountOf(RenderChoices(p, votes)[i]) == CountAt(p, votes, i)
  {
    if p.StorePoll? {
      TallyIsHolding(votes, p.poll.choices[i].0);
    }
  }

  // ---------------------------------------------------------------------
  // renderQuestion

  /** `renderQuestion`'s object: the `Question` together with its `actor`. */
  datatype RenderedQuestion = RenderedQuestion(actor: string, question: ApObject)

  /** The `[poll.multiple ? "anyOf" : "oneOf"]` key of a rendered poll. */
  function ChoiceKeys(multiple: bool, choices: seq<ApChoice>): (Option<seq<ApChoice>>, Option<seq<ApChoice>>) {
    if multiple then (None, Some(choices)) else (Some(choices), None)
  }

  /** `renderQuestion`; `url` is the server's `config.url`, `votes` the note's decoded vote rows. */
  function RenderQuestion(userId: string, note: Note, p: PollSource, votes: seq<Vote>, url: string): (r: RenderedQuestion)
    ensures r.actor == url + "/users/" + userId
    ensures r.question.kind == "Question" && r.question.id == url + "/questions/" + note.id
    ensures r.question.content == Some(if Truthy(note.text) then note.text.value else "")
    ensures r.question.anyOf.Some? <==> Multiple(p)
    ensures r.question.oneOf.Some? <==> !Multiple(p)
    ensures r.question.endTime.None? && r.question.closed.None?
  {
    var keys := ChoiceKeys(Multiple(p), RenderChoices(p, votes));
    RenderedQuestion(url + "/users/" + userId,
      ApObject("Question", url + "/questions/" + note.id,
               Some(if Truthy(note.text) then note.text.value else ""),
               keys.0, keys.1, None, None))
  }

  /** The counts of every choice, as a reader of the rendered poll takes them. */
  function Counts(p: PollSource, votes: seq<Vote>): (r: seq<int>)
    ensures |r| == |ChoiceTexts(p)|
    ensures forall i :: 0 <= i < |r| ==> r[i] == CountAt(p, votes, i)
  {
    seq(|ChoiceTexts(p)|, i requires 0 <= i < |ChoiceTexts(p)| => CountAt(p, votes, i))
  }

  /** Reading the choices of a rendered poll back gives its texts and counts. */
  lemma ReadBack(p: PollSource, votes: seq<Vote>, list: seq<ApChoice>)
    requires list == RenderChoices(p, votes)
    ensures MapSeq(list, NameOf) == ChoiceTexts(p)
    ensures MapSeq(list, CountOf) == Counts(p, votes)
  {
    forall i | 0 <= i < |list|
      ensures MapSeq(list, CountOf)[i] == Counts(p, votes)[i]
    {
      RenderedCounts(p, votes, i);
    }
  }

  /**
   * A question rendered here and read back by `extractPollFromQuestion`
   * keeps its choice texts, its counts and whether it is multiple-choice.
   */
  lemma QuestionRoundTrip(userId: string, note: Note, p: PollSource, votes: seq<Vote>, url: string, parseDate: string -> int)
    ensures ExtractPoll(RenderQuestion(userId, note, p, votes, url).question, parseDate)
         == Ok(PollSpec(ChoiceTexts(p), Counts(p, votes), Multiple(p), None))
  {
    var q := RenderQuestion(userId, note, p, votes, url).question;
    ReadBack(p, votes, ChoiceList(q));
  }

  // ---------------------------------------------------------------------
  // renderNote

  /** `inReplyTo`: `null` without a reply, unset when the reply or its author is not found. */
  datatype ReplyRef = NoReply | Unresolved | ReplyUri(uri: string) | Embedded(reply: Note)

  /** The poll part merged into a rendered note. */
  datatype ApPoll = ApPoll(closed: bool, expiresAt: Option<int>, multiple: bool, choices: seq<ApChoice>)

  /** The fields of `renderNote`'s object the model keeps. */
  datatype ApNote = ApNote(
    id: string,
    kind: string,
    attributedTo: string,
    summary: Option<string>,
    content: string,
    source: string,
    quote: Option<string>,
    published: int,
    to: seq<string>,
    cc: seq<string>,
    inReplyTo: ReplyRef,
    attachment: seq<DriveFile>,
    sensitive: bool,
    poll: Option<ApPoll>,
    talk: bool)

  /** What `renderNote` reads besides the note. */
  datatype Lookups = Lookups(
    replyNote: Option<Note>,
    replyAuthorKnown: bool,
    renote: Option<Note>,
    mentions: seq<string>,
    drive: seq<DriveFile>,
    pollRow: Option<PollRecord>,
    votes: seq<Vote>)

  /** The `to`/`cc` pair for a visibility, as in section 5.6 of the ActivityPub recommendation. */
  function Addressing(visibility: Visibility, attributedTo: string, mentions: seq<string>): (r: (seq<string>, seq<string>))
    ensures visibility == Public ==> r == ([PublicCollection], [attributedTo + "/followers"] + mentions)
    ensures visibility == HomeOnly ==> r == ([attributedTo + "/followers"], [PublicCollection] + mentions)
    ensures visibility == Followers ==> r == ([attributedTo + "/followers"], mentions)
    ensures visibility in {Specified, Hidden} ==> r == (mentions, [])
  {
    match visibility
    case Public => ([PublicCollection], [attributedTo + "/followers"] + mentions)
    case HomeOnly => ([attributedTo + "/followers"], [PublicCollection] + mentions)
    case Followers => ([attributedTo + "/followers"], mentions)
    case _ => (mentions, [])
  }

  /**
   * Who a rendered note reaches: every mentioned actor always; the public
   * collection exactly for public and home notes; the followers exactly for
   * public, home and followers notes.
   */
  lemma Audience(visibility: Visibility, attributedTo: string, mentions: seq<string>)
    requires PublicCollection !in mentions && attributedTo + "/followers" !in mentions
    ensures var (to, cc) := Addressing(visibility, attributedTo, mentions);
      && (forall m :: m in mentions ==> m in to + cc)
      && (PublicCollection in to + cc <==> visibility in {Public, HomeOnly})
      && (attributedTo + "/followers" in to + cc <==> visibility in {Public, HomeOnly, Followers})
      && (forall x :: x in to + cc ==> x in mentions || x == PublicCollection || x == attributedTo + "/followers")
  {
    var followers := attributedTo + "/followers";
    assert followers[|followers| - 1] == 's' != PublicCollection[|PublicCollection| - 1];
  }

  /** `summary`: an empty cw becomes a zero-width space, so that the content warning survives. */
  function Summary(cw: Option<string>): (r: Option<string>)
    ensures cw == Some("") ==> r == Some(ZeroWidthSpace)
    ensures cw != Some("") ==> r == cw
    ensures r.None? <==> cw.None?
  {
    if cw == Some("") then Some(ZeroWidthSpace) else cw
  }

  function NoteUrl(url: string, id: string): string { url + "/notes/" + id }

  /** `quote`: the renoted note's URI, else its local URL; unset when there is no renote or it is not found. */
  function Quote(note: Note, renote: Option<Note>, url: string): (r: Option<string>)
    ensures r.Some? <==> note.renoteId.Some? && renote.Some?
    ensures r.Some? && Truthy(renote.value.uri) ==> r.value == renote.value.uri.value
    ensures r.Some? && !Truthy(renote.value.uri) ==> r.value == NoteUrl(url, renote.value.id)
  {
    if note.renoteId.Some? && renote.Some? then
      Some(if Truthy(renote.value.uri) then renote.value.uri.value else NoteUrl(url, renote.value.id))
    else None
  }

  /** `inReplyTo`, where `dive` chooses between embedding a local reply and linking it. */
  function InReplyTo(note: Note, reply: Option<Note>, authorKnown: bool, dive: bool, url: string): (r: ReplyRef)
    ensures note.replyId.None? <==> r == NoReply
    ensures r.ReplyUri? || r.Embedded? ==> reply.Some? && authorKnown
    ensures r.Embedded? ==> dive && !Truthy(reply.value.uri) && r.reply == reply.value
  {
    if note.replyId.None? then NoReply
    else if reply.None? || !authorKnown then Unresolved
    else if Truthy(reply.value.uri) then ReplyUri(reply.value.uri.value)
    else if dive then Embedded(reply.value)
    else ReplyUri(NoteUrl(url, reply.value.id))
  }

  /** `items.find((item) => item.id === id)` */
  function FindFile(items: seq<DriveFile>, id: string): (r: Option<DriveFile>)
    ensures r.Some? ==> r.value in items && r.value.id == id
    ensures r.None? <==> forall f :: f in items ==> f.id != id
  {
    if |items| == 0 then None
    else if items[0].id == id then Some(items[0])
    else FindFile(items[1..], id)
  }

  /** `getPromisedFiles`: the files found for the ids, in the ids' order, missing ones dropped. */
  function PromisedFiles(ids: seq<string>, items: seq<DriveFile>): (r: seq<DriveFile>)
    ensures forall f :: f in r ==> f in items
    ensures |r| <= |ids|
  {
    if |ids| == 0 then []
    else
      var rest := PromisedFiles(ids[1..], items);
      match FindFile(items, ids[0])
      case Some(f) => [f] + rest
      case None => rest
  }

  /** The attachments keep the order of the note's file ids, and every found id is attached. */
  lemma {:induction false} PromisedFilesOrder(ids: seq<string>, items: seq<DriveFile>)
    ensures IsSubseq(FileIds(PromisedFiles(ids, items)), ids)
    ensures (forall i :: 0 <= i < |ids| ==> FindFile(items, ids[i]).Some?) ==> FileIds(PromisedFiles(ids, items)) == ids
    decreases |ids|
  {
    if |ids| > 0 {
      PromisedFilesOrder(ids[1..], items);
      var rest := PromisedFiles(ids[1..], items);
      if FindFile(items, ids[0]).Some? {
        var f := FindFile(items, ids[0]).value;
        assert FileIds([f] + rest) == [ids[0]] + FileIds(rest);
        assert ids[1..] == ids[1..];
        if forall i :: 0 <= i < |ids| ==> FindFile(items, ids[i]).Some? {
          forall i | 0 <= i < |ids[1..]| ensures FindFile(items, ids[1..][i]).Some? {
            assert ids[1..][i] == ids[i + 1];
          }
          assert ids == [ids[0]] + ids[1..];
        }
      } else {
        SubseqTail(FileIds(rest), ids);
      }
    }
  }

  /** The poll `renderNote` reads: inside the note on the store path, else the `poll` row; none without `hasPoll`. */
  function NotePoll(note: Note, store: bool, pollRow: Option<PollRecord>): (r: Option<PollSource>)
    ensures r.Some? ==> note.hasPoll
    ensures store && note.hasPoll ==> (r.Some? <==> note.poll.Some?)
    ensures r.Some? && store ==> r.value == StorePoll(note.poll.value)
    ensures r.Some? && !store ==> pollRow.Some? && r.value == TablePoll(pollRow.value)
  {
    if !note.hasPoll then None
    else if store then (if note.poll.Some? then Some(StorePoll(note.poll.value)) else None)
    else (if pollRow.Some? then Some(TablePoll(pollRow.value)) else None)
  }

  /** `asPoll`: the key is `closed` once `expiresAt` has passed at `now`, else `endTime`. */
  function RenderPoll(p: PollSource, votes: seq<Vote>, now: int): (r: ApPoll)
    ensures r.closed <==> ExpiresAt(p).Some? && ExpiresAt(p).value < now
    ensures r.expiresAt == ExpiresAt(p) && r.multiple == Multiple(p)
    ensures r.choices == RenderChoices(p, votes)
  {
    ApPoll(ExpiresAt(p).Some? && ExpiresAt(p).value < now, ExpiresAt(p), Multiple(p), RenderChoices(p, votes))
  }

  /**
   * `renderNote(note, dive, isTalk)`: `store` says whether the wide-column
   * store is configured, `now` is the clock.
   */
  function RenderNote(note: Note, dive: bool, isTalk: bool, store: bool, look: Lookups, url: string, now: int): (r: ApNote)
    ensures r.id == NoteUrl(url, note.id) && r.attributedTo == url + "/users/" + note.userId
    ensures (r.to, r.cc) == Addressing(note.visibility, r.attributedTo, look.mentions)
    ensures r.summary == Summary(note.cw)
    ensures r.source == OrElse(note.text, "")
    ensures r.quote == Quote(note, look.renote, url)
    ensures r.inReplyTo == InReplyTo(note, look.replyNote, look.replyAuthorKnown, dive, url)
    ensures r.attachment == PromisedFiles(note.fileIds, look.drive)
    ensures r.sensitive <==> note.cw.Some? || exists f :: f in r.attachment && f.isSensitive
    ensures r.poll.Some? <==> NotePoll(note, store, look.pollRow).Some?
    ensures r.kind == if r.poll.Some? then "Question" else "Note"
    ensures r.poll.None? && r.quote.Some? ==> r.content == r.source + "\n\nRE: " + r.quote.value
    ensures r.poll.None? && r.quote.None? ==> r.content == r.source
    ensures r.poll.Some? ==> r.content == r.source
    ensures r.talk == isTalk && r.published == note.createdAt
  {
    var attributedTo := url + "/users/" + note.userId;
    var (to, cc) := Addressing(note.visibility, attributedTo, look.mentions);
    var files := PromisedFiles(note.fileIds, look.drive);
    var text := OrElse(note.text, "");
    var quote := Quote(note, look.renote, url);
    var apText := if quote.Some? then text + "\n\nRE: " + quote.value else text;
    var poll := NotePoll(note, store, look.pollRow);
    var asPoll := if poll.Some? then Some(RenderPoll(poll.value, look.votes, now)) else None;
    ApNote(
      NoteUrl(url, note.id),
      if asPoll.Some? then "Question" else "Note",
      attributedTo,
      Summary(note.cw),
      if asPoll.Some? then text else apText,
      text,
      quote,
      note.createdAt,
      to, cc,
      InReplyTo(note, look.replyNote, look.replyAuthorKnown, dive, url),
      files,
      note.cw.Some? || exists f :: f in files && f.isSensitive,
      asPoll,
      isTalk)
  }

  /**
   * The rendered note as a remote `extractPollFromQuestion` sees it, with
   * `iso` the JSON form of a date.
   */
  function AsObject(n: ApNote, iso: int -> string): (r: ApObject)
    ensures r.kind == n.kind && r.id == n.id && r.content == Some(n.content)
  {
    var (oneOf, anyOf) := if n.poll.Some? then ChoiceKeys(n.poll.value.multiple, n.poll.value.choices) else (None, None);
    var date := if n.poll.Some? && n.poll.value.expiresAt.Some? then Some(iso(n.poll.value.expiresAt.value)) else None;
    var closed := n.poll.Some? && n.poll.value.closed;
    ApObject(n.kind, n.id, Some(n.content), oneOf, anyOf,
             if closed then None else date, if closed then date else None)
  }

  /**
   * A note with a poll, rendered here and read back remotely, gives back
   * the poll's texts, counts, kind and expiry; a note without one is not a
   * question.
   */
  lemma NoteRoundTrip(note: Note, dive: bool, isTalk: bool, store: bool, look: Lookups, url: string, now: int,
                      iso: int -> string, parseDate: string -> int)
    requires forall t :: iso(t) != "" && parseDate(iso(t)) == t
    ensures var p := NotePoll(note, store, look.pollRow);
      var back := ExtractPoll(AsObject(RenderNote(note, dive, isTalk, store, look, url, now), iso), parseDate);
      && (p.None? ==> back == Err(InvalidType))
      && (p.Some? ==> back == Ok(PollSpec(ChoiceTexts(p.value), Counts(p.value, look.votes), Multiple(p.value), ExpiresAt(p.value))))
  {
    var p := NotePoll(note, store, look.pollRow);
    if p.Some? {
      var q := AsObject(RenderNote(note, dive, isTalk, store, look, url, now), iso);
      ReadBack(p.value, look.votes, ChoiceList(q));
      if ExpiresAt(p.value).Some? {
        assert parseDate(iso(ExpiresAt(p.value).value)) == ExpiresAt(p.value).value;
      }
    }
  }

  /**
   * On the store path a first vote by a new voter raises the rendered count
   * of each choice it holds by one and leaves the others.
   */
  lemma VoteRaisesCount(rows: seq<VoteRow>, row: VoteRow, poll: Poll, i: nat)
    requires VoterRows(rows, row.noteId, row.userId) == [] && i < |poll.choices|
    ensures var before := RenderChoices(StorePoll(poll), VotesOf(rows, row.noteId))[i].totalItems.value;
      var after := RenderChoices(StorePoll(poll), VotesOf(Upsert(rows, row), row.noteId))[i].totalItems.value;
      after == before + (if poll.choices[i].0 in ParseScyllaPollVote(row).choice then 1 else 0)
  {
    UpsertTallyFresh(rows, row, row.noteId, poll.choices[i].0);
  }
}

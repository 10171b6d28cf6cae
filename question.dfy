/**
 * Remote polls (`remote/activitypub/models/question.ts`): reading a poll out
 * of an ActivityPub `Question`, and bringing the local vote counts of an
 * already known question up to the remote ones. On the store path the local
 * count of a choice is the number of `poll_vote` rows holding it, so catching
 * up means inserting anonymous votes; votes are never taken away.
 */
module ApQuestion {
  import opened Common
  import opened ScyllaRows
  import opened PollVotes

  /** One answer of a `Question`: a `Note` whose `replies.totalItems` counts its votes. */
  datatype ApChoice = ApChoice(name: string, totalItems: Option<int>, misskeyVotes: Option<int>)

  /** The fields of a resolved ActivityPub object that the poll code reads. */
  datatype ApObject = ApObject(
    kind: string,
    id: string,
    content: Option<string>,
    oneOf: Option<seq<ApChoice>>,
    anyOf: Option<seq<ApChoice>>,
    endTime: Option<string>,
    closed: Option<string>)

  /** `IPoll`: the poll a remote question becomes. */
  datatype PollSpec = PollSpec(choices: seq<string>, votes: seq<int>, multiple: bool, expiresAt: Option<int>)

  const InvalidType: string := "invalid type"
  const InvalidQuestion: string := "invalid question"
  const UriPointsLocal: string := "uri points local"
  const NotRegistered: string := "Question is not registed"
  const NotAQuestion: string := "object is not a Question"
  /** The `TypeError` of reading `.replies` on the missing answer of a local choice. */
  const MissingAnswer: string := "TypeError: no answer named like the choice"

  /** A numeric field in a `||` chain: present and not 0. */
  predicate CountTruthy(n: Option<int>) {
    n.Some? && n.value != 0
  }

  /** `x.replies?.totalItems || x._misskey_votes || 0` */
  function CountOf(c: ApChoice): int {
    if CountTruthy(c.totalItems) then c.totalItems.value
    else if CountTruthy(c.misskeyVotes) then c.misskeyVotes.value
    else 0
  }

  function NameOf(c: ApChoice): string { c.name }

  /** The answers a poll is read from: `anyOf` for a multiple-choice question, else `oneOf`. */
  function ChoiceList(q: ApObject): seq<ApChoice>
    requires q.oneOf.Some? || q.anyOf.Some?
  {
    if q.oneOf.None? then q.anyOf.value else q.oneOf.value
  }

  /**
   * `extractPollFromQuestion` on the resolved object; `parseDate` is
   * `new Date(...)` on the question's timestamps.
   */
  function ExtractPoll(q: ApObject, parseDate: string -> int): (r: Result<PollSpec>)
    ensures q.kind != "Question" ==> r == Err(InvalidType)
    ensures q.kind == "Question" && q.oneOf.None? && q.anyOf.None? ==> r == Err(InvalidQuestion)
    ensures r.Ok? <==> q.kind == "Question" && (q.oneOf.Some? || q.anyOf.Some?)
    ensures r.Ok? ==> (r.value.multiple <==> q.oneOf.None?)
    ensures r.Ok? ==> |r.value.choices| == |r.value.votes| == |ChoiceList(q)|
    ensures r.Ok? ==> forall i :: 0 <= i < |ChoiceList(q)| ==>
              r.value.choices[i] == ChoiceList(q)[i].name && r.value.votes[i] == CountOf(ChoiceList(q)[i])
    ensures r.Ok? ==> (r.value.expiresAt ==
              if Truthy(q.endTime) then Some(parseDate(q.endTime.value))
              else if Truthy(q.closed) then Some(parseDate(q.closed.value)) else None)
  {
    if q.kind != "Question" then Err(InvalidType)
    else
      var multiple := q.oneOf.None?;
      var expiresAt := if Truthy(q.endTime) then Some(parseDate(q.endTime.value))
                       else if Truthy(q.closed) then Some(parseDate(q.closed.value)) else None;
      if multiple && q.anyOf.None? then Err(InvalidQuestion)
      else
        var list := if multiple then q.anyOf.value else q.oneOf.value;
        Ok(PollSpec(MapSeq(list, NameOf), MapSeq(list, CountOf), multiple, expiresAt))
  }

  // ---------------------------------------------------------------------
  // updateQuestion

  /** `oneOf || anyOf`: an empty array is still present. */
  function Answers(q: ApObject): Option<seq<ApChoice>> {
    if q.oneOf.Some? then q.oneOf else q.anyOf
  }

  function NameIs(name: string): ApChoice -> bool {
    (c: ApChoice) => c.name == name
  }

  /** `apChoices.filter((ap) => ap.name === name)[0].replies?.totalItems`, or `None` when nothing matches. */
  function RemoteCount(answers: seq<ApChoice>, name: string): Option<Option<int>> {
    var m := Filter(answers, NameIs(name));
    if |m| == 0 then None else Some(m[0].totalItems)
  }

  function UriIs(uri: string): NoteRow -> bool {
    (row: NoteRow) => row.uri == Some(uri)
  }

  /**
   * The checks before any comparison: the registered note carrying the poll,
   * or the message thrown. `url` is the server's own base URL.
   */
  function Registered(notes: seq<NoteRow>, uri: string, url: string): (r: Result<Note>)
    ensures StartsWith(uri, url + "/") ==> r == Err(UriPointsLocal)
    ensures r.Ok? ==> r.value.uri == Some(uri) && r.value.hasPoll && r.value.poll.Some?
    ensures r.Ok? ==> r.value in MapSeq(notes, ParseScyllaNote)
    ensures r.Err? && !StartsWith(uri, url + "/") ==> r.msg == NotRegistered
  {
    if StartsWith(uri, url + "/") then Err(UriPointsLocal)
    else
      var rows := Filter(notes, UriIs(uri));
      if |rows| == 0 then Err(NotRegistered)
      else
        var note := ParseScyllaNote(rows[0]);
        assert rows[0] in notes;
        if note.hasPoll && note.poll.Some? then Ok(note) else Err(NotRegistered)
  }

  /** How many anonymous votes catch one local count up with a remote one. */
  function Deficit(oldCount: int, newCount: Option<int>): (d: nat)
    ensures d > 0 <==> newCount.Some? && oldCount < newCount.value
    ensures d > 0 ==> oldCount + d == newCount.value
  {
    if newCount.Some? && oldCount < newCount.value then newCount.value - oldCount else 0
  }

  function Repeat(x: int, n: nat): (r: seq<int>)
    ensures |r| == n && forall i :: 0 <= i < n ==> r[i] == x
  {
    if n == 0 then [] else Repeat(x, n - 1) + [x]
  }

  /**
   * The choice indexes of the anonymous votes the store path inserts while
   * walking `entries`, in order, and whether every entry found its answer
   * (the walk stops at the first one that does not). `votes` is the vote
   * list read before the walk.
   */
  function Plan(entries: seq<(int, string)>, votes: seq<Vote>, answers: seq<ApChoice>): (r: (seq<int>, bool))
    decreases |entries|
  {
    if |entries| == 0 then ([], true)
    else
      var prev := Plan(entries[..|entries| - 1], votes, answers);
      var e := entries[|entries| - 1];
      var remote := RemoteCount(answers, e.1);
      if !prev.1 || remote.None? then (prev.0, false)
      else (prev.0 + Repeat(e.0, Deficit(Tally(votes, e.0), remote.value)), true)
  }

  /** An anonymous vote: `anonymous-<id>` on host `anonymous`, for one choice. */
  function AnonRow(noteId: string, index: int, id: string, at: int): VoteRow {
    VoteRow(noteId, "anonymous-" + id, Some("anonymous"), Some([index]), at)
  }

  /** An anonymous vote counts for its one choice on its note. */
  lemma AnonVote(noteId: string, index: int, id: string, at: int)
    ensures var v := ParseScyllaPollVote(AnonRow(noteId, index, id, at));
      v.noteId == noteId && v.choice == {index} && v.userHost == Some("anonymous")
  {
  }

  /**
   * The vote rows after the first `n` anonymous votes of a plan, inserted one
   * after the other; `minted[k]` is the id `genId` mints and the time the
   * clock shows for the `k`-th insert.
   */
  function Inserted(rows: seq<VoteRow>, noteId: string, plan: seq<int>, n: nat, minted: seq<(string, int)>): seq<VoteRow>
    requires n <= |plan| && n <= |minted|
    decreases n
  {
    if n == 0 then rows
    else Upsert(Inserted(rows, noteId, plan, n - 1, minted), AnonRow(noteId, plan[n - 1], minted[n - 1].0, minted[n - 1].1))
  }

  /**
   * The loop of the store path over the local poll's `entries`: the answer
   * and the vote rows it leaves behind. The local counts come from the votes
   * read before the loop.
   */
  function CatchUp(rows: seq<VoteRow>, noteId: string, entries: seq<(int, string)>, answers: seq<ApChoice>,
                   minted: seq<(string, int)>): (Result<bool>, seq<VoteRow>)
    requires |Plan(entries, VotesOf(rows, noteId), answers).0| <= |minted|
  {
    var plan := Plan(entries, VotesOf(rows, noteId), answers);
    var after := Inserted(rows, noteId, plan.0, |plan.0|, minted);
    if plan.1 then (Ok(|plan.0| > 0), after) else (Err(MissingAnswer), after)
  }

  /** How many anonymous votes the store path of `updateQuestion` inserts. */
  function Needed(rows: seq<VoteRow>, notes: seq<NoteRow>, uri: string, question: ApObject, url: string): nat {
    var reg := Registered(notes, uri, url);
    if reg.Err? || question.kind != "Question" || Answers(question).None? then 0
    else |Plan(reg.value.poll.value.choices, VotesOf(rows, reg.value.id), Answers(question).value).0|
  }

  /** What `updateQuestion` answers on the store path, and the vote rows it leaves behind. */
  function StoreUpdate(rows: seq<VoteRow>, notes: seq<NoteRow>, uri: string, question: ApObject, url: string,
                       minted: seq<(string, int)>): (Result<bool>, seq<VoteRow>)
    requires Needed(rows, notes, uri, question, url) <= |minted|
  {
    var reg := Registered(notes, uri, url);
    if reg.Err? then (Err(reg.msg), rows)
    else if question.kind != "Question" then (Err(NotAQuestion), rows)
    else if Answers(question).None? then (Ok(false), rows)
    else CatchUp(rows, reg.value.id, reg.value.poll.value.choices, Answers(question).value, minted)
  }

  /**
   * The store path of `updateQuestion`. `question` is the resolved object,
   * `notes` the note table; inserts made before a missing answer is hit stay.
   */
  method UpdateQuestion(table: VoteTable, notes: seq<NoteRow>, uri: string, question: ApObject, url: string,
                        minted: seq<(string, int)>) returns (r: Result<bool>)
    requires Needed(table.rows, notes, uri, question, url) <= |minted|
    modifies table
    ensures (r, table.rows) == StoreUpdate(old(table.rows), notes, uri, question, url, minted)
  {
    var reg := Registered(notes, uri, url);
    if reg.Err? {
      return Err(reg.msg);
    }
    var note := reg.value;
    if question.kind != "Question" {
      return Err(NotAQuestion);
    }
    var apChoices := Answers(question);
    if apChoices.None? {
      return Ok(false);
    }
    r := CatchUpVotes(table, note.id, note.poll.value.choices, apChoices.value, minted);
  }

  /** The `for` loop of the store path: anonymous votes until each local count reaches the remote one. */
  method CatchUpVotes(table: VoteTable, noteId: string, entries: seq<(int, string)>, answers: seq<ApChoice>,
                      minted: seq<(string, int)>) returns (r: Result<bool>)
    requires |Plan(entries, VotesOf(table.rows, noteId), answers).0| <= |minted|
    modifies table
    ensures (r, table.rows) == CatchUp(old(table.rows), noteId, entries, answers, minted)
  {
    var changed := false;
    var votes := VotesOf(table.rows, noteId);
    ghost var base := table.rows;
    ghost var full := Plan(entries, votes, answers).0;
    var k := 0;
    for i := 0 to |entries|
      invariant Plan(entries[..i], votes, answers).1
      invariant k == |Plan(entries[..i], votes, answers).0| <= |full|
      invariant table.rows == Inserted(base, noteId, full, k, minted)
      invariant changed <==> k > 0
    {
      var index := entries[i].0;
      var oldCount := Tally(votes, index);
      var matches := Filter(answers, NameIs(entries[i].1));
      PlanStep(entries, votes, answers, i);
      if |matches| == 0 {
        PlanStops(entries, votes, answers, i + 1);
        return Err(MissingAnswer);
      }
      var newCount := matches[0].totalItems;
      PlanPrefix(entries, votes, answers, i + 1);
      if newCount.Some? && oldCount < newCount.value {
        changed := true;
        RunOf(Plan(entries[..i], votes, answers).0, index, newCount.value - oldCount, full);
        k := InsertAnonymous(table, noteId, index, newCount.value - oldCount, k, minted, base, full);
      }
    }
    assert entries[..|entries|] == entries;
    return Ok(changed);
  }

  /**
   * The inner loop of the store path: `count` anonymous votes for one choice,
   * the `k`-th to the `(k + count - 1)`-th of the plan; answers where the
   * next insert of the plan starts.
   */
  method InsertAnonymous(table: VoteTable, noteId: string, index: int, count: nat, k: nat,
                         minted: seq<(string, int)>, ghost base: seq<VoteRow>, ghost full: seq<int>) returns (m: nat)
    requires k + count <= |full| <= |minted| && forall j :: k <= j < k + count ==> full[j] == index
    requires table.rows == Inserted(base, noteId, full, k, minted)
    modifies table
    ensures m == k + count && table.rows == Inserted(base, noteId, full, m, minted)
  {
    m := k;
    while m < k + count
      invariant k <= m <= k + count
      invariant table.rows == Inserted(base, noteId, full, m, minted)
    {
      assert full[m] == index;
      table.Insert(AnonRow(noteId, index, minted[m].0, minted[m].1));
      m := m + 1;
    }
  }

  /** A run of one index inside the plan. */
  lemma RunOf(prefix: seq<int>, x: int, c: nat, full: seq<int>)
    requires prefix + Repeat(x, c) <= full
    ensures |prefix| + c <= |full| && forall j :: |prefix| <= j < |prefix| + c ==> full[j] == x
  {
    forall j | |prefix| <= j < |prefix| + c
      ensures full[j] == x
    {
      assert full[j] == (prefix + Repeat(x, c))[j];
    }
  }

  /** Each plan of a prefix of the entries is a prefix of the whole plan. */
  lemma {:induction false} PlanPrefix(entries: seq<(int, string)>, votes: seq<Vote>, answers: seq<ApChoice>, i: nat)
    requires i <= |entries|
    ensures Plan(entries[..i], votes, answers).0 <= Plan(entries, votes, answers).0
    decreases |entries|
  {
    if i == |entries| {
      assert entries[..i] == entries;
    } else {
      var init := entries[..|entries| - 1];
      assert init[..i] == entries[..i];
      PlanPrefix(init, votes, answers, i);
    }
  }

  /** One more entry whose answer exists extends the plan by its deficit. */
  lemma PlanStep(entries: seq<(int, string)>, votes: seq<Vote>, answers: seq<ApChoice>, i: nat)
    requires i < |entries| && Plan(entries[..i], votes, answers).1
    ensures var remote := RemoteCount(answers, entries[i].1);
      Plan(entries[..i + 1], votes, answers)
      == if remote.None? then (Plan(entries[..i], votes, answers).0, false)
         else (Plan(entries[..i], votes, answers).0 + Repeat(entries[i].0, Deficit(Tally(votes, entries[i].0), remote.value)), true)
  {
    assert entries[..i + 1][..i] == entries[..i];
  }

  /** Once an entry misses its answer the plan stops growing. */
  lemma {:induction false} PlanStops(entries: seq<(int, string)>, votes: seq<Vote>, answers: seq<ApChoice>, n: nat)
    requires n <= |entries| && !Plan(entries[..n], votes, answers).1
    ensures Plan(entries, votes, answers) == Plan(entries[..n], votes, answers)
    decreases |entries|
  {
    if n < |entries| {
      assert entries[..|entries| - 1][..n] == entries[..n];
      PlanStops(entries[..|entries| - 1], votes, answers, n);
    } else {
      assert entries[..n] == entries;
    }
  }
}

/**
 * The store branch of the threaded replies of a note
 * (server/api/endpoints/notes/children.ts): the root is read by id and
 * dropped unless the viewer may see it; its replies are then collected
 * breadth first, a queue of notes being expanded one at a time through the
 * by-reply-id select, until the queue is empty, `limit` replies are found
 * or `depth` notes with replies have been expanded; the first `limit`
 * replies are packed.
 */
module ReplyTree {
  import opened Common
  import opened ScyllaRows
  import opened NoteFilters
  import opened NoteDelete

  /** The request; `limit` and `depth` are 1..100 in the parameter schema (defaults 10 and 12). */
  datatype ChildrenParams = ChildrenParams(noteId: string, limit: int, depth: int)

  // ---------------------------------------------------------------------
  // The selects

  /** `getNote`: the first `note_by_id` row with the id, if the viewer may see it; `null` otherwise. */
  function Root(notes: seq<NoteRow>, noteId: string, user: Option<string>, followingIds: seq<string>): (r: Option<Note>)
    ensures r.Some? ==> r.value.id == noteId && VisibleTo(r.value, user, followingIds) && Stored(notes, r.value)
    ensures (forall row :: row in notes ==> row.id != noteId) ==> r.None?
  {
    var hits := Filter(notes, IdIs(noteId));
    if |hits| == 0 then None
    else
      var candidate := ParseScyllaNote(hits[0]);
      assert hits[0] in hits;
      DecodedMember(notes, hits[0]);
      if VisibleTo(candidate, user, followingIds) then Some(candidate) else None
  }

  /** `SELECT * FROM note WHERE "replyId" = ?`, bound to `id`, parsed. */
  function Replies(notes: seq<NoteRow>, id: string): seq<Note> {
    MapSeq(Filter(notes, ReplyIdIs(id)), ParseScyllaNote)
  }

  /** Every reply the select returns is a stored note that replies to `id`. */
  lemma RepliesSound(notes: seq<NoteRow>, id: string)
    ensures forall n :: n in Replies(notes, id) ==> n.replyId == Some(id) && Stored(notes, n)
  {
    var hits := Filter(notes, ReplyIdIs(id));
    DecodedRowsStored(notes, hits);
    forall n | n in Replies(notes, id)
      ensures n.replyId == Some(id)
    {
      var i :| 0 <= i < |hits| && Replies(notes, id)[i] == n;
      assert hits[i] in hits;
    }
  }

  /** A stored row replying to `id` is among its replies. */
  lemma RepliesComplete(notes: seq<NoteRow>, id: string, row: NoteRow)
    requires row in notes && row.replyId == Some(id)
    ensures ParseScyllaNote(row) in Replies(notes, id)
  {
    var hits := Filter(notes, ReplyIdIs(id));
    assert row in hits;
    var i :| 0 <= i < |hits| && hits[i] == row;
    assert Replies(notes, id)[i] == ParseScyllaNote(row);
  }

  /** The by-reply-id select as a function of the parent id. */
  function ReplyLookup(notes: seq<NoteRow>): string -> seq<Note> {
    (id: string) => Replies(notes, id)
  }

  /** A lookup that returns only replies to the given id. */
  ghost predicate RepliesLinked(replies: string -> seq<Note>) {
    forall id, n :: n in replies(id) ==> n.replyId == Some(id)
  }

  /** A lookup that returns only notes of the pool. */
  ghost predicate RepliesDrawn(replies: string -> seq<Note>, pool: seq<Note>) {
    forall id, n :: n in replies(id) ==> n in pool
  }

  lemma ReplyLookupSound(notes: seq<NoteRow>)
    ensures RepliesLinked(ReplyLookup(notes)) && RepliesDrawn(ReplyLookup(notes), Decoded(notes))
  {
    forall id
      ensures forall n :: n in ReplyLookup(notes)(id) ==> n.replyId == Some(id) && n in Decoded(notes)
    {
      RepliesSound(notes, id);
    }
  }

  // ---------------------------------------------------------------------
  // The walk

  /** The loop's variables: `queue`, `foundReplies` and `depth`. */
  datatype Walk = Walk(queue: seq<Note>, found: seq<Note>, depth: int)

  /** The state before the loop. */
  function Start(root: Note): Walk {
    Walk([root], [], 0)
  }

  /** The loop's condition. */
  predicate Going(w: Walk, limit: int, maxDepth: int) {
    |w.queue| > 0 && |w.found| < limit && w.depth < maxDepth
  }

  /** One iteration: dequeue a note; when it has replies, collect and enqueue them and count the expansion. */
  function Expand(replies: string -> seq<Note>, w: Walk): Walk
    requires |w.queue| > 0
  {
    var rs := replies(w.queue[0].id);
    if |rs| > 0 then Walk(w.queue[1..] + rs, w.found + rs, w.depth + 1)
    else Walk(w.queue[1..], w.found, w.depth)
  }

  /** The loop from state `w` on. */
  function RunWalk(replies: string -> seq<Note>, limit: int, maxDepth: int, w: Walk): Walk
    decreases maxDepth - w.depth, |w.queue|
  {
    if Going(w, limit, maxDepth) then RunWalk(replies, limit, maxDepth, Expand(replies, w)) else w
  }

  /** One turn of the loop: expanding the head of the queue, or stopping. */
  lemma WalkStep(replies: string -> seq<Note>, limit: int, maxDepth: int, w: Walk)
    ensures Going(w, limit, maxDepth) ==> RunWalk(replies, limit, maxDepth, w) == RunWalk(replies, limit, maxDepth, Expand(replies, w))
    ensures !Going(w, limit, maxDepth) ==> RunWalk(replies, limit, maxDepth, w) == w
  {
  }

  /** The replies of each note of `xs`, in the order of `xs`. */
  function Expanded(replies: string -> seq<Note>, xs: seq<Note>): seq<Note>
    decreases |xs|
  {
    if |xs| == 0 then [] else Expanded(replies, xs[..|xs| - 1]) + replies(xs[|xs| - 1].id)
  }

  /** How many notes of `xs` have at least one reply. */
  function Grown(replies: string -> seq<Note>, xs: seq<Note>): nat
    decreases |xs|
  {
    if |xs| == 0 then 0
    else Grown(replies, xs[..|xs| - 1]) + (if |replies(xs[|xs| - 1].id)| > 0 then 1 else 0)
  }

  /**
   * Each note of `xs` was already among the root and the replies collected
   * from the notes before it: the `k`th note follows at most as many
   * replies as its predecessors produced.
   */
  predicate Fed(replies: string -> seq<Note>, xs: seq<Note>)
    decreases |xs|
  {
    |xs| == 0
    || (Fed(replies, xs[..|xs| - 1]) && |xs| - 1 <= |Expanded(replies, xs[..|xs| - 1])|)
  }

  /**
   * The queue discipline: the queue is what remains, in order, of the root
   * followed by the collected replies; the collected replies are the replies
   * of the notes already dequeued, in dequeue order; each dequeued note had
   * been collected before it was dequeued; and the depth counter is the
   * number of dequeued notes that had replies.
   */
  predicate WalkInv(replies: string -> seq<Note>, root: Note, w: Walk) {
    var all := [root] + w.found;
    |w.queue| <= |all|
    && w.queue == all[|all| - |w.queue|..]
    && w.found == Expanded(replies, all[..|all| - |w.queue|])
    && w.depth == Grown(replies, all[..|all| - |w.queue|])
    && Fed(replies, all[..|all| - |w.queue|])
  }

  lemma StartInv(replies: string -> seq<Note>, root: Note)
    ensures WalkInv(replies, root, Start(root))
  {
    var all := [root];
    assert all[..|all| - 1] == [];
  }

  /** Shifting the queue's head while `extra` is pushed onto both the queue and the collection. */
  lemma QueueShift<T>(all: seq<T>, extra: seq<T>, queue: seq<T>)
    requires 0 < |queue| <= |all| && queue == all[|all| - |queue|..]
    ensures var k := |all| - |queue|;
      (all + extra)[..k + 1] == all[..k] + [queue[0]]
      && (all + extra)[k + 1..] == queue[1..] + extra
  {
    var k := |all| - |queue|;
    assert all[k] == queue[0];
    assert (all + extra)[..k + 1] == all[..k + 1];
    assert all[..k + 1] == all[..k] + [all[k]];
  }

  /** Dequeuing one more note. */
  lemma DoneSnoc(replies: string -> seq<Note>, done: seq<Note>, head: Note)
    ensures Expanded(replies, done + [head]) == Expanded(replies, done) + replies(head.id)
    ensures Grown(replies, done + [head]) == Grown(replies, done) + (if |replies(head.id)| > 0 then 1 else 0)
    ensures Fed(replies, done + [head]) <==> Fed(replies, done) && |done| <= |Expanded(replies, done)|
  {
    assert (done + [head])[..|done|] == done;
  }

  /** One iteration moves the queue's head to the dequeued notes and pushes the head's replies. */
  lemma ExpandTail(replies: string -> seq<Note>, root: Note, w: Walk)
    requires 0 < |w.queue| <= |[root] + w.found| && w.queue == ([root] + w.found)[|[root] + w.found| - |w.queue|..]
    ensures var all := [root] + w.found;
      var w' := Expand(replies, w);
      var all' := [root] + w'.found;
      |w'.queue| <= |all'| && w'.queue == all'[|all'| - |w'.queue|..]
      && all'[..|all'| - |w'.queue|] == all[..|all| - |w.queue|] + [w.queue[0]]
  {
    var all := [root] + w.found;
    var rs := replies(w.queue[0].id);
    var w' := Expand(replies, w);
    assert w'.found == w.found + rs && w'.queue == w.queue[1..] + rs by {
      if |rs| == 0 {
        assert w.found + rs == w.found && w.queue[1..] + rs == w.queue[1..];
      }
    }
    assert [root] + w'.found == all + rs;
    QueueShift(all, rs, w.queue);
  }

  /** One iteration extends the collected replies and the depth by the dequeued head. */
  lemma ExpandDone(replies: string -> seq<Note>, done: seq<Note>, w: Walk)
    requires |w.queue| > 0 && |done| <= |w.found|
    requires w.found == Expanded(replies, done) && w.depth == Grown(replies, done) && Fed(replies, done)
    ensures var w' := Expand(replies, w);
      w'.found == Expanded(replies, done + [w.queue[0]]) && w'.depth == Grown(replies, done + [w.queue[0]])
      && Fed(replies, done + [w.queue[0]])
  {
    DoneSnoc(replies, done, w.queue[0]);
    if |replies(w.queue[0].id)| == 0 {
      assert w.found + replies(w.queue[0].id) == w.found;
    }
  }

  /** One iteration keeps the queue discipline. */
  lemma ExpandKeeps(replies: string -> seq<Note>, root: Note, w: Walk)
    requires |w.queue| > 0 && WalkInv(replies, root, w)
    ensures WalkInv(replies, root, Expand(replies, w))
  {
    var all := [root] + w.found;
    ExpandTail(replies, root, w);
    ExpandDone(replies, all[..|all| - |w.queue|], w);
  }

  /**
   * From a state keeping the queue discipline, the loop keeps it, stops
   * only when the queue is empty, `limit` replies are found or the depth is
   * reached, never counts past the depth, and only adds to what was found.
   */
  lemma {:induction false} RunWalkSound(replies: string -> seq<Note>, limit: int, maxDepth: int, root: Note, w: Walk)
    requires WalkInv(replies, root, w)
    ensures var r := RunWalk(replies, limit, maxDepth, w);
      WalkInv(replies, root, r) && !Going(r, limit, maxDepth)
      && w.found <= r.found
      && w.depth <= r.depth <= Max(maxDepth, w.depth)
    decreases maxDepth - w.depth, |w.queue|
  {
    if Going(w, limit, maxDepth) {
      ExpandKeeps(replies, root, w);
      RunWalkSound(replies, limit, maxDepth, root, Expand(replies, w));
    }
  }

  /** Each note collected from the replies of `xs` is a note of the pool. */
  lemma {:induction false} ExpandedDrawn(replies: string -> seq<Note>, pool: seq<Note>, xs: seq<Note>)
    requires RepliesDrawn(replies, pool)
    ensures forall n :: n in Expanded(replies, xs) ==> n in pool
    decreases |xs|
  {
    if |xs| > 0 {
      ExpandedDrawn(replies, pool, xs[..|xs| - 1]);
    }
  }

  /** The `i`th collected reply is a reply to one of the first `i + 1` expanded notes. */
  lemma {:induction false} ExpandedOrder(replies: string -> seq<Note>, xs: seq<Note>, i: int)
    requires RepliesLinked(replies) && Fed(replies, xs) && 0 <= i < |Expanded(replies, xs)|
    ensures exists k :: 0 <= k <= i && k < |xs| && Expanded(replies, xs)[i].replyId == Some(xs[k].id)
    decreases |xs|
  {
    var init := xs[..|xs| - 1];
    var last := xs[|xs| - 1];
    var head := Expanded(replies, init);
    if i < |head| {
      ExpandedOrder(replies, init, i);
      var k :| 0 <= k <= i && k < |init| && head[i].replyId == Some(init[k].id);
      assert xs[k] == init[k];
    } else {
      assert Expanded(replies, xs)[i] in replies(last.id);
      assert xs[..|xs| - 1] == init;
    }
  }

  /** A collected reply replies to the root or to a reply collected before it. */
  lemma ExpandedBefore(replies: string -> seq<Note>, root: Note, w: Walk, i: int)
    requires RepliesLinked(replies) && WalkInv(replies, root, w) && 0 <= i < |w.found|
    ensures w.found[i].replyId == Some(root.id) || exists j :: 0 <= j < i && w.found[i].replyId == Some(w.found[j].id)
  {
    var all := [root] + w.found;
    var done := all[..|all| - |w.queue|];
    ExpandedOrder(replies, done, i);
    var k :| 0 <= k <= i && k < |done| && w.found[i].replyId == Some(done[k].id);
    if k > 0 {
      assert done[k] == all[k] == w.found[k - 1];
    }
  }

  // ---------------------------------------------------------------------
  // The endpoint

  /** The walk the endpoint runs for a visible root. */
  function ThreadWalk(notes: seq<NoteRow>, ps: ChildrenParams, root: Note): Walk {
    RunWalk(ReplyLookup(notes), ps.limit, ps.depth, Start(root))
  }

  /** The notes the store branch packs: none without a visible root, else the first `limit` collected replies. */
  function ChildrenNotes(notes: seq<NoteRow>, ps: ChildrenParams, user: Option<string>, followingIds: seq<string>): seq<Note> {
    match Root(notes, ps.noteId, user, followingIds)
    case None => []
    case Some(root) => JsSlice(ThreadWalk(notes, ps, root).found, 0, ps.limit)
  }

  /**
   * The walk from a root ends with the queue empty, `limit` replies found
   * or `depth` expansions made, never more than `depth` (when positive);
   * the replies are those of the dequeued notes in FIFO order, the dequeued
   * notes being the root followed by the collected replies, and the counter
   * is the number of dequeued notes that had replies.
   */
  lemma WalkSound(replies: string -> seq<Note>, limit: int, maxDepth: int, root: Note)
    ensures var w := RunWalk(replies, limit, maxDepth, Start(root));
      (|w.queue| == 0 || |w.found| >= limit || w.depth >= maxDepth)
      && 0 <= w.depth <= Max(maxDepth, 0)
      && WalkInv(replies, root, w)
  {
    var w0 := Start(root);
    assert w0.depth == 0;
    StartInv(replies, root);
    RunWalkSound(replies, limit, maxDepth, root, w0);
  }

  /** Each note replies to the root or to a note before it. */
  predicate Threaded(rootId: string, xs: seq<Note>) {
    forall i :: 0 <= i < |xs| ==>
      xs[i].replyId == Some(rootId) || exists j :: 0 <= j < i && xs[i].replyId == Some(xs[j].id)
  }

  lemma ThreadedPrefix(rootId: string, xs: seq<Note>, n: int)
    requires Threaded(rootId, xs) && 0 <= n <= |xs|
    ensures Threaded(rootId, xs[..n])
  {
    forall i | 0 <= i < n
      ensures xs[..n][i].replyId == Some(rootId) || exists j :: 0 <= j < i && xs[..n][i].replyId == Some(xs[..n][j].id)
    {
      if xs[i].replyId != Some(rootId) {
        var j :| 0 <= j < i && xs[i].replyId == Some(xs[j].id);
        assert xs[..n][j] == xs[j];
      }
    }
  }

  /** Under the queue discipline, the collection is threaded below the root and drawn from the pool. */
  lemma FoundThreaded(replies: string -> seq<Note>, pool: seq<Note>, root: Note, w: Walk)
    requires RepliesLinked(replies) && RepliesDrawn(replies, pool) && WalkInv(replies, root, w)
    ensures Threaded(root.id, w.found) && forall n :: n in w.found ==> n in pool
  {
    var all := [root] + w.found;
    ExpandedDrawn(replies, pool, all[..|all| - |w.queue|]);
    forall i | 0 <= i < |w.found|
      ensures w.found[i].replyId == Some(root.id) || exists j :: 0 <= j < i && w.found[i].replyId == Some(w.found[j].id)
    {
      ExpandedBefore(replies, root, w, i);
    }
  }

  /** At most `limit` notes of the pool, each replying to the root or to a note before it. */
  predicate ThreadAnswer(pool: seq<Note>, rootId: string, limit: int, out: seq<Note>) {
    (limit >= 0 ==> |out| <= limit)
    && (forall n :: n in out ==> n in pool)
    && Threaded(rootId, out)
  }

  /** The first `limit` of a collection kept under the queue discipline. */
  lemma SlicedFound(replies: string -> seq<Note>, pool: seq<Note>, limit: int, root: Note, w: Walk)
    requires RepliesLinked(replies) && RepliesDrawn(replies, pool) && WalkInv(replies, root, w)
    ensures ThreadAnswer(pool, root.id, limit, JsSlice(w.found, 0, limit))
  {
    FoundThreaded(replies, pool, root, w);
    var out := JsSlice(w.found, 0, limit);
    if limit >= 0 {
      JsSliceWindow(w.found, 0, limit);
    }
    assert out == w.found[..|out|];
    ThreadedPrefix(root.id, w.found, |out|);
  }

  /**
   * For a lookup returning stored replies: from a state under the queue
   * discipline, the first `limit` replies the loop collects are at most
   * `limit` notes of the pool, each replying to the root or to a reply
   * before it.
   */
  lemma WalkAnswerSound(replies: string -> seq<Note>, pool: seq<Note>, limit: int, maxDepth: int, root: Note, w: Walk)
    requires RepliesLinked(replies) && RepliesDrawn(replies, pool) && WalkInv(replies, root, w)
    ensures ThreadAnswer(pool, root.id, limit, JsSlice(RunWalk(replies, limit, maxDepth, w).found, 0, limit))
  {
    RunWalkSound(replies, limit, maxDepth, root, w);
    SlicedFound(replies, pool, limit, root, RunWalk(replies, limit, maxDepth, w));
  }

  /** The first `limit` replies the walk from `root` collects. */
  lemma ThreadWalkAnswer(notes: seq<NoteRow>, ps: ChildrenParams, root: Note)
    ensures ThreadAnswer(Decoded(notes), root.id, ps.limit, JsSlice(ThreadWalk(notes, ps, root).found, 0, ps.limit))
  {
    ReplyLookupSound(notes);
    StartInv(ReplyLookup(notes), root);
    WalkAnswerSound(ReplyLookup(notes), Decoded(notes), ps.limit, ps.depth, root, Start(root));
  }

  /**
   * The answer is empty without a visible root and holds at most `limit`
   * notes, each a stored note that replies to the root or to a reply
   * before it in the answer.
   */
  lemma ChildrenSound(notes: seq<NoteRow>, ps: ChildrenParams, user: Option<string>, followingIds: seq<string>)
    ensures var out := ChildrenNotes(notes, ps, user, followingIds);
      (Root(notes, ps.noteId, user, followingIds).None? ==> out == [])
      && ThreadAnswer(Decoded(notes), ps.noteId, ps.limit, out)
  {
    var root := Root(notes, ps.noteId, user, followingIds);
    if root.Some? {
      ThreadWalkAnswer(notes, ps, root.value);
    }
  }

  /** The by-reply-id query the loop issues for one dequeued note. */
  method RepliesQuery(notes: seq<NoteRow>, id: string) returns (replies: seq<Note>)
    ensures replies == Replies(notes, id)
  {
    var rows := Filter(notes, ReplyIdIs(id));
    replies := MapSeq(rows, ParseScyllaNote);
  }

  /** The endpoint's walk: breadth first from `root`, until the queue empties, `limit` replies are found or `depth` expansions are made. */
  method WalkReplies(notes: seq<NoteRow>, ps: ChildrenParams, root: Note) returns (foundReplies: seq<Note>)
    ensures foundReplies == ThreadWalk(notes, ps, root).found
  {
    ghost var lookup := ReplyLookup(notes);
    var queue := [root];
    foundReplies := [];
    var depth := 0;
    while |queue| > 0 && |foundReplies| < ps.limit && depth < ps.depth
      invariant RunWalk(lookup, ps.limit, ps.depth, Walk(queue, foundReplies, depth)) == ThreadWalk(notes, ps, root)
      decreases ps.depth - depth, |queue|
    {
      ghost var before := Walk(queue, foundReplies, depth);
      var note := queue[0];
      queue := queue[1..];
      var replies := RepliesQuery(notes, note.id);
      assert replies == lookup(note.id);
      if |replies| > 0 {
        foundReplies := foundReplies + replies;
        queue := queue + replies;
        depth := depth + 1;
      }
      WalkStep(lookup, ps.limit, ps.depth, before);
      assert Walk(queue, foundReplies, depth) == Expand(lookup, before);
    }
    WalkStep(lookup, ps.limit, ps.depth, Walk(queue, foundReplies, depth));
  }

  /**
   * The endpoint's store branch: `notes` is the `note` table (and its
   * by-id view), `followingIds` what the viewer's following cache returns,
   * `pack` is `Notes.packMany`.
   */
  method ChildrenStore<P>(notes: seq<NoteRow>, ps: ChildrenParams, user: Option<string>, followingIds: seq<string>,
                          pack: seq<Note> -> seq<P>) returns (r: seq<P>)
    ensures r == pack(ChildrenNotes(notes, ps, user, followingIds))
  {
    var root := Root(notes, ps.noteId, user, followingIds);
    if root.None? {
      return pack([]);
    }
    var foundReplies := WalkReplies(notes, ps, root.value);
    return pack(JsSlice(foundReplies, 0, ps.limit));
  }
}

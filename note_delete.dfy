/**
 * Deleting a note against the wide-column store (services/note/delete.ts):
 * saturating decrements of the renote target's and the reply parent's
 * counters, propagated to every home-timeline copy of that note; removal of
 * the canonical row and of every home-timeline copy of the deleted note; the
 * activity federated for it; and the transitive collection of the local
 * replies and quotes whose deletion is federated as well.
 *
 * The `note` table and the `home_timeline` table are sequences of rows; the
 * by-id, by-reply-id and by-renote-id selects are filters over them, and a
 * conditional (`IF EXISTS`) update rewrites the rows with the bound key.
 */
module NoteDelete {
  import opened Common
  import opened ScyllaRows

  // ---------------------------------------------------------------------
  // Tables and keyed updates

  datatype Tables = Tables(notes: seq<NoteRow>, home: seq<NoteRow>)

  /** The primary key of a `home_timeline` row. */
  datatype HomeKey = HomeKey(feedUserId: string, createdAtDate: int, createdAt: int, userId: string)

  /** The key of a stored home-timeline row. */
  function RowHomeKey(row: NoteRow): Option<HomeKey> {
    if row.feedUserId.Some? then Some(HomeKey(row.feedUserId.value, row.createdAt, row.createdAt, row.userId)) else None
  }

  /** The row's key is one of `keys`. */
  predicate InKeys(row: NoteRow, keys: set<HomeKey>) {
    RowHomeKey(row).Some? && RowHomeKey(row).value in keys
  }

  /** The key a service binds for a decoded home-timeline row. */
  function CopyKey(t: FeedNote): HomeKey {
    HomeKey(t.feedUserId, t.note.createdAtDate, t.note.createdAt, t.note.userId)
  }

  /** Decoding a home-timeline row and binding its key names that very row. */
  lemma CopyKeyOfRow(row: NoteRow)
    requires row.feedUserId.Some?
    ensures ParseHomeTimeline(row).Some? && RowHomeKey(row) == Some(CopyKey(ParseHomeTimeline(row).value))
  {
  }

  /**
   * The `note` key the delete service binds for a decoded note: its
   * creation time in both date columns, and the local-host sentinel for a
   * local author.
   */
  function BoundKey(n: Note): NoteKey {
    NoteKey(n.createdAt, n.createdAt, n.userId, KeyHost(n.userHost), n.visibility)
  }

  /** The key bound for a decoded row is that row's own key. */
  lemma BoundKeyOfRow(row: NoteRow)
    ensures BoundKey(ParseScyllaNote(row)) == RowKey(row)
  {
  }

  /** The counter columns one update statement writes. */
  datatype Counters = RenoteCounts(count: int, score: int) | RepliesCount(replies: int)

  function Apply(row: NoteRow, c: Counters): (r: NoteRow)
    ensures RowKey(r) == RowKey(row) && RowHomeKey(r) == RowHomeKey(row) && r.id == row.id && r.feedUserId == row.feedUserId
    ensures c.RenoteCounts? ==> r == row.(renoteCount := c.count, score := c.score)
    ensures c.RepliesCount? ==> r == row.(repliesCount := c.replies)
  {
    match c
    case RenoteCounts(count, score) => row.(renoteCount := count, score := score)
    case RepliesCount(replies) => row.(repliesCount := replies)
  }

  /** `UPDATE note SET … WHERE <key> IF EXISTS`: rewrites the rows with that key, never adds one. */
  function UpdateNotes(rows: seq<NoteRow>, key: NoteKey, c: Counters): (r: seq<NoteRow>)
    ensures |r| == |rows|
    ensures forall i :: 0 <= i < |rows| ==> r[i] == if RowKey(rows[i]) == key then Apply(rows[i], c) else rows[i]
  {
    if |rows| == 0 then []
    else [if RowKey(rows[0]) == key then Apply(rows[0], c) else rows[0]] + UpdateNotes(rows[1..], key, c)
  }

  /** The home-timeline statement applied for every key in `keys`. */
  function UpdateHome(rows: seq<NoteRow>, keys: set<HomeKey>, c: Counters): (r: seq<NoteRow>)
    ensures |r| == |rows|
    ensures forall i :: 0 <= i < |rows| ==>
      r[i] == if InKeys(rows[i], keys) then Apply(rows[i], c) else rows[i]
  {
    if |rows| == 0 then []
    else
      [if InKeys(rows[0], keys) then Apply(rows[0], c) else rows[0]] + UpdateHome(rows[1..], keys, c)
  }

  /** The selects by id, reply id and renote id. */
  function IdIs(id: string): NoteRow -> bool {
    (row: NoteRow) => row.id == id
  }

  function ReplyIdIs(id: string): NoteRow -> bool {
    (row: NoteRow) => row.replyId == Some(id)
  }

  function RenoteIdIs(id: string): NoteRow -> bool {
    (row: NoteRow) => row.renoteId == Some(id)
  }

  /** The keys of the decoded home-timeline rows `copies[..n]`. */
  function CopyKeys(copies: seq<Option<FeedNote>>, n: int): set<HomeKey>
    requires 0 <= n <= |copies|
  {
    set i | 0 <= i < n && copies[i].Some? :: CopyKey(copies[i].value)
  }

  /** The home-timeline copies of note `id`, decoded. */
  function Copies(home: seq<NoteRow>, id: string): seq<Option<FeedNote>> {
    MapSeq(Filter(home, IdIs(id)), ParseHomeTimeline)
  }

  // ---------------------------------------------------------------------
  // The three table steps

  /**
   * The counters written for a note that loses one renote (its
   * `renoteCount` and `score`) or one reply (its `repliesCount`): one less,
   * never below zero.
   */
  function Decremented(target: Note, replies: bool): (c: Counters)
    ensures c.RepliesCount? <==> replies
    ensures replies ==> (c.replies >= 0 && (target.repliesCount > 0 ==> c.replies == target.repliesCount - 1)
                         && (target.repliesCount <= 0 ==> c.replies == 0))
    ensures !replies ==> (c.count >= 0 && c.score >= 0
                          && (target.renoteCount > 0 ==> c.count == target.renoteCount - 1)
                          && (target.renoteCount <= 0 ==> c.count == 0)
                          && (target.score > 0 ==> c.score == target.score - 1) && (target.score <= 0 ==> c.score == 0))
  {
    if replies then RepliesCount(Max(target.repliesCount - 1, 0))
    else RenoteCounts(Max(target.renoteCount - 1, 0), Max(target.score - 1, 0))
  }

  /**
   * The renote target (`replies` false) or the reply parent (`replies`
   * true) loses one: the decremented counters go to its canonical row and to
   * every home-timeline copy. A note missing from the store changes nothing.
   */
  function DecrementStep(t: Tables, targetId: string, replies: bool): Tables {
    var rs := Filter(t.notes, IdIs(targetId));
    if |rs| == 0 then t
    else
      var target := ParseScyllaNote(rs[0]);
      var c := Decremented(target, replies);
      var copies := Copies(t.home, target.id);
      Tables(UpdateNotes(t.notes, BoundKey(target), c), UpdateHome(t.home, CopyKeys(copies, |copies|), c))
  }

  function HomeKeyNotIn(keys: set<HomeKey>): NoteRow -> bool {
    (row: NoteRow) => !InKeys(row, keys)
  }

  function KeyIsNot(key: NoteKey): NoteRow -> bool {
    (row: NoteRow) => RowKey(row) != key
  }

  /** The canonical row, then every home-timeline copy of the note, are deleted. */
  function RemoveStep(t: Tables, note: Note): Tables {
    var copies := Copies(t.home, note.id);
    Tables(Filter(t.notes, KeyIsNot(BoundKey(note))), Filter(t.home, HomeKeyNotIn(CopyKeys(copies, |copies|))))
  }

  /**
   * The renote counters are touched only when the deleted note is a renote
   * and its author has no other renote of the same target.
   */
  function AfterCounters(t: Tables, note: Note, sameRenotes: int): Tables {
    var t1 := if Truthy(note.renoteId) && sameRenotes == 0 then DecrementStep(t, note.renoteId.value, false) else t;
    if Truthy(note.replyId) then DecrementStep(t1, note.replyId.value, true) else t1
  }

  /** The tables after the whole delete; `quiet` plays no part in them. */
  function DeleteTables(t: Tables, note: Note, sameRenotes: int): Tables {
    RemoveStep(AfterCounters(t, note, sameRenotes), note)
  }

  // ---------------------------------------------------------------------
  // Federation

  /** The deleting user as the service receives it; `host` is `None` for a local account. */
  datatype Author = Author(id: string, uri: Option<string>, host: Option<string>)

  datatype Activity = UndoAnnounce(announced: string) | DeleteTombstone(tombstone: string)

  /** One call of `deliverToConcerned`: the actor, the note it concerns and the activity. */
  datatype Delivery = Delivery(actorId: string, noteId: string, activity: Activity)

  /** A renote with no text, no poll and no files. */
  predicate PureRenote(note: Note) {
    Truthy(note.renoteId) && note.text.None? && !note.hasPoll && |note.fileIds| == 0
  }

  function NoteUrl(url: string, id: string): string {
    url + "/notes/" + id
  }

  /**
   * The activity federated for the deleted note itself, given the renote
   * target row the store returns (if any): an undone announce for a pure
   * renote whose target is found, a tombstone otherwise; nothing for a
   * remote author or a local-only note.
   */
  function NoteActivity(user: Author, note: Note, notes: seq<NoteRow>, url: string): (r: Option<Delivery>)
    ensures r.Some? <==> user.host.None? && !note.localOnly
    ensures r.Some? ==> r.value.actorId == user.id && r.value.noteId == note.id
    ensures r.Some? && !PureRenote(note) ==> r.value.activity == DeleteTombstone(NoteUrl(url, note.id))
    ensures r.Some? && r.value.activity.UndoAnnounce? ==> PureRenote(note) && |Filter(notes, IdIs(note.renoteId.value))| > 0
  {
    if user.host.Some? || note.localOnly then None
    else
      var rs := if PureRenote(note) then Filter(notes, IdIs(note.renoteId.value)) else [];
      if |rs| > 0 then
        var renote := ParseScyllaNote(rs[0]);
        Some(Delivery(user.id, note.id, UndoAnnounce(if Truthy(renote.uri) then renote.uri.value else NoteUrl(url, renote.id))))
      else Some(Delivery(user.id, note.id, DeleteTombstone(NoteUrl(url, note.id))))
  }

  // ---------------------------------------------------------------------
  // findCascadingNotes

  /** The decoded rows of the table. */
  function Decoded(notes: seq<NoteRow>): seq<Note> {
    MapSeq(notes, ParseScyllaNote)
  }

  /** `n` is the decoding of a row of the table. */
  predicate Stored(notes: seq<NoteRow>, n: Note) {
    n in Decoded(notes)
  }

  lemma DecodedMember(notes: seq<NoteRow>, row: NoteRow)
    requires row in notes
    ensures Stored(notes, ParseScyllaNote(row))
  {
    var j :| 0 <= j < |notes| && notes[j] == row;
    assert Decoded(notes)[j] == ParseScyllaNote(row);
  }

  /** The replies of `id`, then its renotes that carry text, in store order. */
  function Children(notes: seq<NoteRow>, id: string): (r: seq<Note>)
    ensures forall n :: n in r ==> ChildOf(n, id)
  {
    var replies := MapSeq(Filter(notes, ReplyIdIs(id)), ParseScyllaNote);
    var renotes := Filter(MapSeq(Filter(notes, RenoteIdIs(id)), ParseScyllaNote), HasText);
    replies + renotes
  }

  predicate HasText(n: Note) {
    Truthy(n.text)
  }

  /** Every child is the decoding of a stored row. */
  lemma ChildrenStored(notes: seq<NoteRow>, id: string)
    ensures forall n :: n in Children(notes, id) ==> ChildOf(n, id) && Stored(notes, n)
  {
    DecodedRowsStored(notes, Filter(notes, ReplyIdIs(id)));
    DecodedRowsStored(notes, Filter(notes, RenoteIdIs(id)));
  }

  /** The decodings of rows drawn from the table are stored notes. */
  lemma DecodedRowsStored(notes: seq<NoteRow>, rows: seq<NoteRow>)
    requires forall row :: row in rows ==> row in notes
    ensures forall n :: n in MapSeq(rows, ParseScyllaNote) ==> Stored(notes, n)
  {
    forall n | n in MapSeq(rows, ParseScyllaNote)
      ensures Stored(notes, n)
    {
      var i :| 0 <= i < |rows| && MapSeq(rows, ParseScyllaNote)[i] == n;
      assert rows[i] in rows;
      DecodedMember(notes, rows[i]);
    }
  }

  /** The note `n` replies to or quotes a note with id `parent`. */
  predicate ChildOf(n: Note, parent: string) {
    n.replyId == Some(parent) || (n.renoteId == Some(parent) && Truthy(n.text))
  }

  /** The select pair of `findCascadingNotes`, as a function of the parent id. */
  function ChildrenOf(notes: seq<NoteRow>): string -> seq<Note> {
    id => Children(notes, id)
  }

  /**
   * The walk of `findCascadingNotes`: each child, then everything below it,
   * depth first. `fuel` bounds the depth of the walk.
   */
  function Cascade(children: string -> seq<Note>, id: string, fuel: nat): (r: seq<Note>)
    decreases fuel, 0
  {
    if fuel == 0 then [] else CascadeList(children, children(id), fuel - 1)
  }

  function CascadeList(children: string -> seq<Note>, kids: seq<Note>, fuel: nat): (r: seq<Note>)
    decreases fuel, 1, |kids|
  {
    if |kids| == 0 then []
    else [kids[0]] + Cascade(children, kids[0].id, fuel) + CascadeList(children, kids[1..], fuel)
  }

  /** The ids a note replies to or quotes with text. */
  function ParentIds(n: Note): (r: set<string>)
    ensures forall p :: p in r <==> ChildOf(n, p)
  {
    (if n.replyId.Some? then {n.replyId.value} else {})
    + (if n.renoteId.Some? && Truthy(n.text) then {n.renoteId.value} else {})
  }

  /** The ids of the notes of `ns`. */
  function Ids(ns: seq<Note>): set<string>
    decreases |ns|
  {
    if |ns| == 0 then {} else Ids(ns[..|ns| - 1]) + {ns[|ns| - 1].id}
  }

  lemma {:induction false} IdsAppend(a: seq<Note>, b: seq<Note>)
    ensures Ids(a + b) == Ids(a) + Ids(b)
    decreases |b|
  {
    if |b| == 0 {
      assert a + b == a;
    } else {
      assert (a + b)[..|a + b| - 1] == a + b[..|b| - 1];
      IdsAppend(a, b[..|b| - 1]);
    }
  }

  /** `n` replies to or quotes one of `anchors`. */
  predicate Hangs(n: Note, anchors: set<string>) {
    ParentIds(n) * anchors != {}
  }

  /** Every note of `r` replies to or quotes one of `anchors` or a note before it in `r`. */
  predicate AncestryFrom(anchors: set<string>, r: seq<Note>)
    decreases |r|
  {
    |r| == 0 || (AncestryFrom(anchors, r[..|r| - 1]) && Hangs(r[|r| - 1], anchors + Ids(r[..|r| - 1])))
  }

  /** The ancestry read at one position. */
  lemma {:induction false} AncestryAt(anchors: set<string>, r: seq<Note>, i: int)
    requires AncestryFrom(anchors, r) && 0 <= i < |r|
    ensures Hangs(r[i], anchors + Ids(r[..i]))
    decreases |r|
  {
    if i < |r| - 1 {
      var p := r[..|r| - 1];
      AncestryAt(anchors, p, i);
      assert p[i] == r[i] && p[..i] == r[..i];
    }
  }

  predicate AllIn(pool: seq<Note>, r: seq<Note>) {
    forall n :: n in r ==> n in pool
  }

  /** A children function that returns only children of the given parent. */
  ghost predicate ChildrenLinked(children: string -> seq<Note>) {
    forall p, n :: n in children(p) ==> ChildOf(n, p)
  }

  /** A children function that returns only notes of the pool. */
  ghost predicate ChildrenDrawn(children: string -> seq<Note>, pool: seq<Note>) {
    forall p, n :: n in children(p) ==> n in pool
  }

  lemma ChildrenOfSound(notes: seq<NoteRow>)
    ensures ChildrenLinked(ChildrenOf(notes)) && ChildrenDrawn(ChildrenOf(notes), Decoded(notes))
  {
    forall p
      ensures forall n :: n in ChildrenOf(notes)(p) ==> ChildOf(n, p) && n in Decoded(notes)
    {
      ChildrenStored(notes, p);
    }
  }

  /**
   * Every collected note is a decoded store row that replies to or quotes
   * the root or a note collected before it.
   */
  predicate Descends(notes: seq<NoteRow>, root: string, r: seq<Note>) {
    AllIn(Decoded(notes), r) && AncestryFrom({root}, r)
  }

  /** More anchors keep an ancestry. */
  lemma {:induction false} AncestryWiden(a: set<string>, b: set<string>, r: seq<Note>)
    requires a <= b && AncestryFrom(a, r)
    ensures AncestryFrom(b, r)
    decreases |r|
  {
    if |r| > 0 {
      var p := r[..|r| - 1];
      AncestryWiden(a, b, p);
      assert ParentIds(r[|r| - 1]) * (a + Ids(p)) <= ParentIds(r[|r| - 1]) * (b + Ids(p));
    }
  }

  /** A walk that hangs off the anchors, followed by one that hangs off the anchors or the first walk. */
  lemma {:induction false} AncestryAppend(anchors: set<string>, a: seq<Note>, b: seq<Note>)
    requires AncestryFrom(anchors, a) && AncestryFrom(anchors + Ids(a), b)
    ensures AncestryFrom(anchors, a + b)
    decreases |b|
  {
    if |b| == 0 {
      assert a + b == a;
    } else {
      var p := b[..|b| - 1];
      AncestryAppend(anchors, a, p);
      assert (a + b)[..|a + b| - 1] == a + p;
      assert (a + b)[|a + b| - 1] == b[|b| - 1];
      IdsAppend(a, p);
      assert anchors + Ids(a + p) == anchors + Ids(a) + Ids(p);
    }
  }

  /** The walk below children of `parent` hangs off `parent`. */
  lemma {:induction false} CascadeListAncestry(children: string -> seq<Note>, parent: string, kids: seq<Note>, fuel: nat)
    requires ChildrenLinked(children)
    requires forall n :: n in kids ==> ChildOf(n, parent)
    ensures AncestryFrom({parent}, CascadeList(children, kids, fuel))
    decreases fuel, |kids|
  {
    if |kids| > 0 {
      var k := kids[0];
      var below := Cascade(children, k.id, fuel);
      var rest := CascadeList(children, kids[1..], fuel);
      assert ChildOf(k, parent) by {
        assert k in kids;
      }
      assert AncestryFrom({k.id}, below) by {
        if fuel > 0 {
          assert below == CascadeList(children, children(k.id), fuel - 1);
          CascadeListAncestry(children, k.id, children(k.id), fuel - 1);
        } else {
          assert below == [];
        }
      }
      assert AncestryFrom({parent}, rest) by {
        assert forall n :: n in kids[1..] ==> n in kids;
        CascadeListAncestry(children, parent, kids[1..], fuel);
      }
      assert CascadeList(children, kids, fuel) == [k] + below + rest;
      AncestryCons(parent, k, below, rest);
    }
  }

  /** A child, the walk below it and the walk below its later siblings hang off their parent. */
  lemma AncestryCons(parent: string, k: Note, below: seq<Note>, rest: seq<Note>)
    requires ChildOf(k, parent) && AncestryFrom({k.id}, below) && AncestryFrom({parent}, rest)
    ensures AncestryFrom({parent}, [k] + below + rest)
  {
    var head := [k];
    assert Ids(head) == {k.id} by {
      assert head[..0] == [];
    }
    assert AncestryFrom({parent}, head) by {
      assert head[..0] == [];
      assert parent in ParentIds(head[0]);
      assert AncestryFrom({parent}, head[..0]);
    }
    AncestryWiden({k.id}, {parent} + Ids(head), below);
    AncestryAppend({parent}, head, below);
    AncestryWiden({parent}, {parent} + Ids(head + below), rest);
    AncestryAppend({parent}, head + below, rest);
  }

  /** Every note of the walk below `kids` is drawn from the pool. */
  lemma {:induction false} CascadeListStored(children: string -> seq<Note>, pool: seq<Note>, kids: seq<Note>, fuel: nat)
    requires ChildrenDrawn(children, pool)
    requires AllIn(pool, kids)
    ensures AllIn(pool, CascadeList(children, kids, fuel))
    decreases fuel, |kids|
  {
    if |kids| > 0 {
      assert kids[0] in kids;
      if fuel > 0 {
        CascadeListStored(children, pool, children(kids[0].id), fuel - 1);
      }
      assert forall n :: n in kids[1..] ==> n in kids;
      CascadeListStored(children, pool, kids[1..], fuel);
    }
  }

  /** A listed child is collected (given any fuel). */
  lemma {:induction false} ChildrenCollected(children: string -> seq<Note>, kids: seq<Note>, fuel: nat)
    ensures forall n :: n in kids ==> n in CascadeList(children, kids, fuel)
    decreases |kids|
  {
    if |kids| > 0 {
      ChildrenCollected(children, kids[1..], fuel);
      assert forall n :: n in kids ==> n == kids[0] || n in kids[1..];
    }
  }

  /**
   * `path` is a chain of cascade steps below `root`: its first note replies
   * to or quotes `root`, and each later note replies to or quotes the one
   * before it.
   */
  predicate Chain(children: string -> seq<Note>, root: string, path: seq<Note>) {
    |path| > 0 && path[0] in children(root)
    && forall i :: 0 < i < |path| ==> path[i] in children(path[i - 1].id)
  }

  /** Everything the walk collects below one of `kids` is collected below `kids`. */
  lemma {:induction false} BelowCollected(children: string -> seq<Note>, kids: seq<Note>, fuel: nat, k: Note, n: Note)
    requires k in kids && n in Cascade(children, k.id, fuel)
    ensures n in CascadeList(children, kids, fuel)
    decreases |kids|
  {
    assert CascadeList(children, kids, fuel)
      == [kids[0]] + Cascade(children, kids[0].id, fuel) + CascadeList(children, kids[1..], fuel);
    if kids[0] != k {
      assert k in kids[1..];
      BelowCollected(children, kids[1..], fuel, k, n);
    }
  }

  /** With at least as much fuel as the chain is long, the walk collects the chain's last note. */
  lemma {:induction false} ChainCollected(children: string -> seq<Note>, root: string, path: seq<Note>, fuel: nat)
    requires Chain(children, root, path) && |path| <= fuel
    ensures path[|path| - 1] in Cascade(children, root, fuel)
    decreases |path|
  {
    assert Cascade(children, root, fuel) == CascadeList(children, children(root), fuel - 1);
    if |path| == 1 {
      ChildrenCollected(children, children(root), fuel - 1);
    } else {
      var tail := path[1..];
      assert Chain(children, path[0].id, tail) by {
        forall i | 0 < i < |tail|
          ensures tail[i] in children(tail[i - 1].id)
        {
          assert tail[i] == path[i + 1] && tail[i - 1] == path[i];
        }
      }
      ChainCollected(children, path[0].id, tail, fuel - 1);
      assert tail[|tail| - 1] == path[|path| - 1];
      BelowCollected(children, children(root), fuel - 1, path[0], path[|path| - 1]);
    }
  }

  /**
   * A chain that visits a note twice can skip the loop between the two
   * visits; so every chain can be shortened to one that repeats no note and
   * ends at the same note.
   */
  lemma {:induction false} SimpleChain(children: string -> seq<Note>, root: string, path: seq<Note>) returns (p: seq<Note>)
    requires Chain(children, root, path)
    ensures Chain(children, root, p) && NoDup(p) && p[|p| - 1] == path[|path| - 1]
    decreases |path|
  {
    if NoDup(path) {
      p := path;
    } else {
      var i, j :| 0 <= i < j < |path| && path[i] == path[j];
      var q := path[..i + 1] + path[j + 1..];
      assert q[0] == path[0];
      forall k | 0 < k < |q|
        ensures q[k] in children(q[k - 1].id)
      {
        if k <= i {
          assert q[k] == path[k] && q[k - 1] == path[k - 1];
        } else if k == i + 1 {
          assert q[k] == path[j + 1] && q[k - 1] == path[j];
        } else {
          assert q[k] == path[j + 1 + k - (i + 1)] && q[k - 1] == path[j + k - (i + 1)];
        }
      }
      assert q[|q| - 1] == path[|path| - 1] by {
        if j + 1 == |path| {
          assert q == path[..i + 1];
        }
      }
      p := SimpleChain(children, root, q);
    }
  }

  /** A sequence without repeats, all of whose elements occur in `pool`, is no longer than `pool`. */
  lemma {:induction false} NoDupFits<T>(s: seq<T>, pool: seq<T>)
    requires NoDup(s) && forall x :: x in s ==> x in pool
    ensures |s| <= |pool|
    decreases |s|
  {
    if |s| > 0 {
      assert s[0] in s;
      var i :| 0 <= i < |pool| && pool[i] == s[0];
      var rest := pool[..i] + pool[i + 1..];
      forall y | y in s[1..]
        ensures y in rest
      {
        var k :| 0 <= k < |s[1..]| && s[1..][k] == y;
        assert s[k + 1] == y && s[0] != s[k + 1];
        assert y in s;
        var m :| 0 <= m < |pool| && pool[m] == y;
        if m < i {
          assert rest[m] == y;
        } else {
          assert rest[m - 1] == y;
        }
      }
      NoDupFits(s[1..], rest);
    }
  }

  /** Every note of a chain is drawn from the pool the children come from. */
  lemma ChainDrawn(children: string -> seq<Note>, pool: seq<Note>, root: string, path: seq<Note>)
    requires ChildrenDrawn(children, pool) && Chain(children, root, path)
    ensures forall n :: n in path ==> n in pool
  {
    forall n | n in path
      ensures n in pool
    {
      var i :| 0 <= i < |path| && path[i] == n;
      if i == 0 {
        assert n in children(root);
      } else {
        assert n in children(path[i - 1].id);
      }
    }
  }

  /**
   * `findCascadingNotes` is transitive: every note reachable from the
   * deleted note through any chain of replies and text-bearing quotes is
   * collected. The depth bound of the walk never cuts a chain short, since
   * a chain can be shortened to one without repeats, which is no longer than
   * the table.
   */
  lemma CascadeReaches(notes: seq<NoteRow>, note: Note, path: seq<Note>)
    requires Chain(ChildrenOf(notes), note.id, path)
    ensures path[|path| - 1] in StoreCascade(notes, note)
  {
    ChildrenOfSound(notes);
    var p := SimpleChain(ChildrenOf(notes), note.id, path);
    ChainDrawn(ChildrenOf(notes), Decoded(notes), note.id, p);
    NoDupFits(p, Decoded(notes));
    ChainCollected(ChildrenOf(notes), note.id, p, |notes|);
  }

  /** `CascadeReaches` for every chain at once. */
  lemma CascadeTransitive(notes: seq<NoteRow>, note: Note)
    ensures forall path :: Chain(ChildrenOf(notes), note.id, path) ==> path[|path| - 1] in StoreCascade(notes, note)
  {
    forall path | Chain(ChildrenOf(notes), note.id, path)
      ensures path[|path| - 1] in StoreCascade(notes, note)
    {
      CascadeReaches(notes, note, path);
    }
  }

  function IsLocalNote(n: Note): bool {
    n.userHost.None?
  }

  /** The walk from the deleted note, with as much fuel as there are stored rows. */
  function StoreCascade(notes: seq<NoteRow>, note: Note): seq<Note> {
    Cascade(ChildrenOf(notes), note.id, |notes|)
  }

  /** `findCascadingNotes`: the walk from the deleted note, its local notes only. */
  function FindCascadingNotes(notes: seq<NoteRow>, note: Note): (r: seq<Note>)
    ensures forall i :: 0 <= i < |r| ==> r[i].userHost.None?
    ensures IsSubseq(r, StoreCascade(notes, note))
    ensures forall path: seq<Note> :: Chain(ChildrenOf(notes), note.id, path) && path[|path| - 1].userHost.None? ==> path[|path| - 1] in r
  {
    CascadeTransitive(notes, note);
    FilterIsSubseq(StoreCascade(notes, note), IsLocalNote);
    Filter(StoreCascade(notes, note), IsLocalNote)
  }

  /**
   * The walk collects every direct reply and text-bearing quote of the
   * deleted note, and every note it collects is a stored row that replies to
   * or quotes the deleted note or a note collected before it.
   */
  lemma CascadeSound(notes: seq<NoteRow>, note: Note)
    ensures Descends(notes, note.id, StoreCascade(notes, note))
    ensures |notes| > 0 ==> forall n :: n in Children(notes, note.id) ==> n in StoreCascade(notes, note)
    ensures forall n :: n in FindCascadingNotes(notes, note) <==> n in StoreCascade(notes, note) && n.userHost.None?
    ensures forall path :: Chain(ChildrenOf(notes), note.id, path) ==> path[|path| - 1] in StoreCascade(notes, note)
  {
    CascadeTransitive(notes, note);
    ChildrenOfSound(notes);
    if |notes| > 0 {
      var kids := ChildrenOf(notes)(note.id);
      assert StoreCascade(notes, note) == CascadeList(ChildrenOf(notes), kids, |notes| - 1);
      CascadeListAncestry(ChildrenOf(notes), note.id, kids, |notes| - 1);
      CascadeListStored(ChildrenOf(notes), Decoded(notes), kids, |notes| - 1);
      ChildrenCollected(ChildrenOf(notes), kids, |notes| - 1);
    }
  }

  /**
   * A collected note as the delivery loop sees it: the store decoder never
   * attaches the author entity, so `user` is `None` for every one of them.
   */
  datatype CascadedNote = CascadedNote(note: Note, user: Option<Author>)

  function AsCascaded(n: Note): CascadedNote {
    CascadedNote(n, None)
  }

  predicate NotLocalOnly(n: Note) {
    !n.localOnly
  }

  /** The loop as written delivers only for notes that carry a local author. */
  predicate DeliveredFor(items: seq<CascadedNote>, url: string, d: Delivery) {
    exists i :: 0 <= i < |items| && items[i].user.Some? && items[i].user.value.host.None?
      && d == Delivery(items[i].user.value.id, items[i].note.id, DeleteTombstone(NoteUrl(url, items[i].note.id)))
  }

  /** The delivery loop as written: a note without an attached local author is skipped. */
  function CascadeDeliveriesAsWritten(items: seq<CascadedNote>, url: string): (r: seq<Delivery>)
    ensures |r| <= |items|
    ensures forall d :: d in r ==> DeliveredFor(items, url, d)
  {
    if |items| == 0 then []
    else
      var rest := CascadeDeliveriesAsWritten(items[1..], url);
      var c := items[0];
      assert forall d :: d in rest ==> DeliveredFor(items, url, d) by {
        forall d | d in rest
          ensures DeliveredFor(items, url, d)
        {
          var i :| 0 <= i < |items[1..]| && items[1..][i].user.Some? && items[1..][i].user.value.host.None?
            && d == Delivery(items[1..][i].user.value.id, items[1..][i].note.id, DeleteTombstone(NoteUrl(url, items[1..][i].note.id)));
          assert items[1..][i] == items[i + 1];
        }
      }
      if c.user.None? || c.user.value.host.Some? then rest
      else [Delivery(c.user.value.id, c.note.id, DeleteTombstone(NoteUrl(url, c.note.id)))] + rest
  }

  /** Store-decoded cascades carry no author, so the loop as written delivers nothing. */
  lemma {:induction false} CascadeAsWrittenDeliversNothing(ns: seq<Note>, url: string)
    ensures CascadeDeliveriesAsWritten(MapSeq(ns, AsCascaded), url) == []
    decreases |ns|
  {
    if |ns| > 0 {
      assert MapSeq(ns, AsCascaded)[1..] == MapSeq(ns[1..], AsCascaded);
      CascadeAsWrittenDeliversNothing(ns[1..], url);
    }
  }

  /** One reply below a local note: the cascade finds it and, as written, delivers nothing for it. */
  lemma CascadeExample()
    ensures var parent := ParseScyllaNote(ExampleReplyRow().(id := "p", replyId := None));
      var notes := [ExampleReplyRow()];
      FindCascadingNotes(notes, parent) == [ParseScyllaNote(ExampleReplyRow())]
      && CascadeDeliveriesAsWritten(MapSeq(Filter(FindCascadingNotes(notes, parent), NotLocalOnly), AsCascaded), "https://x") == []
      && |CascadeDeliveries(Filter(FindCascadingNotes(notes, parent), NotLocalOnly), "https://x")| == 1
  {
    var row := ExampleReplyRow();
    var notes := [row];
    var parent := ParseScyllaNote(row.(id := "p", replyId := None));
    assert Filter(notes, ReplyIdIs("p")) == [row];
    assert Filter(notes, RenoteIdIs("p")) == [];
    assert ChildrenOf(notes)("p") == [ParseScyllaNote(row)];
    assert Cascade(ChildrenOf(notes), "c", 0) == [];
    assert CascadeList(ChildrenOf(notes), [ParseScyllaNote(row)], 0) == [ParseScyllaNote(row)];
    assert StoreCascade(notes, parent) == [ParseScyllaNote(row)];
    var found := FindCascadingNotes(notes, parent);
    assert found == [ParseScyllaNote(row)];
    assert Filter(found, NotLocalOnly) == found;
    CascadeAsWrittenDeliversNothing(found, "https://x");
  }

  /** A local, public reply "c" to note "p". */
  function ExampleReplyRow(): NoteRow {
    NoteRow(
      1000, "c", Public, Some("hi"), None, None, false, 0, 0, None, None, 0,
      None, None, None, None, None, None, None, None, None, "u", LocalHost,
      Some("p"), None, None, None, None, None,
      None, None, None, None, None, None,
      None, None, None, None, None)
  }

  /**
   * The delivery loop as evidently intended: every collected note, which
   * `findCascadingNotes` already restricted to local authors, federates a
   * tombstone from its own author.
   */
  function CascadeDeliveries(cascading: seq<Note>, url: string): (r: seq<Delivery>)
    ensures |r| == |cascading|
    ensures forall i :: 0 <= i < |r| ==>
      r[i] == Delivery(cascading[i].userId, cascading[i].id, DeleteTombstone(NoteUrl(url, cascading[i].id)))
  {
    if |cascading| == 0 then []
    else
      var n := cascading[0];
      [Delivery(n.userId, n.id, DeleteTombstone(NoteUrl(url, n.id)))] + CascadeDeliveries(cascading[1..], url)
  }

  /** Everything federated by a non-quiet delete: the note's own activity, then the cascade. */
  function Deliveries(t: Tables, user: Author, note: Note, url: string): seq<Delivery> {
    var own := NoteActivity(user, note, t.notes, url);
    (if own.Some? then [own.value] else [])
      + CascadeDeliveries(Filter(FindCascadingNotes(t.notes, note), NotLocalOnly), url)
  }

  // ---------------------------------------------------------------------
  // Properties of the table steps

  /**
   * A decrement step writes the decremented counters into the canonical row
   * of the note (and any row with the same key) and into every
   * home-timeline copy of it; it changes no other row of the note table and
   * adds or removes no row. A note missing from the store changes nothing.
   */
  lemma DecrementStepEffect(t: Tables, targetId: string, replies: bool)
    ensures var r := DecrementStep(t, targetId, replies);
      |r.notes| == |t.notes| && |r.home| == |t.home|
    ensures var rs := Filter(t.notes, IdIs(targetId)); var r := DecrementStep(t, targetId, replies);
      |rs| > 0 ==>
        var c := Decremented(ParseScyllaNote(rs[0]), replies);
        (forall i :: 0 <= i < |t.notes| ==>
           r.notes[i] == if RowKey(t.notes[i]) == RowKey(rs[0]) then Apply(t.notes[i], c) else t.notes[i])
        && (forall i :: 0 <= i < |t.home| && t.home[i].id == rs[0].id && t.home[i].feedUserId.Some? ==>
              r.home[i] == Apply(t.home[i], c))
    ensures |Filter(t.notes, IdIs(targetId))| == 0 ==> DecrementStep(t, targetId, replies) == t
  {
    var rs := Filter(t.notes, IdIs(targetId));
    if |rs| > 0 {
      BoundKeyOfRow(rs[0]);
      CopiesCovered(t.home, rs[0].id);
    }
  }

  /** No counter of any row is negative. */
  predicate CountersOk(rows: seq<NoteRow>) {
    forall i :: 0 <= i < |rows| ==> rows[i].renoteCount >= 0 && rows[i].repliesCount >= 0 && rows[i].score >= 0
  }

  /** The decremented counters are never negative, so a decrement step keeps `CountersOk`. */
  lemma DecrementKeepsCounters(t: Tables, targetId: string, replies: bool)
    requires CountersOk(t.notes) && CountersOk(t.home)
    ensures var r := DecrementStep(t, targetId, replies);
      CountersOk(r.notes) && CountersOk(r.home)
  {
    var rs := Filter(t.notes, IdIs(targetId));
    if |rs| > 0 {
      var target := ParseScyllaNote(rs[0]);
      var c := Decremented(target, replies);
      var copies := Copies(t.home, target.id);
      UpdateNotesKeeps(t.notes, BoundKey(target), c);
      UpdateHomeKeeps(t.home, CopyKeys(copies, |copies|), c);
    }
  }

  predicate CountersNonNegative(c: Counters) {
    match c
    case RenoteCounts(count, score) => count >= 0 && score >= 0
    case RepliesCount(replies) => replies >= 0
  }

  lemma UpdateNotesKeeps(rows: seq<NoteRow>, key: NoteKey, c: Counters)
    requires CountersOk(rows) && CountersNonNegative(c)
    ensures CountersOk(UpdateNotes(rows, key, c))
  {
  }

  lemma UpdateHomeKeeps(rows: seq<NoteRow>, keys: set<HomeKey>, c: Counters)
    requires CountersOk(rows) && CountersNonNegative(c)
    ensures CountersOk(UpdateHome(rows, keys, c))
  {
  }

  /** A whole delete keeps `CountersOk` on both tables. */
  lemma DeleteKeepsCounters(t: Tables, note: Note, sameRenotes: int)
    requires CountersOk(t.notes) && CountersOk(t.home)
    ensures var r := DeleteTables(t, note, sameRenotes);
      CountersOk(r.notes) && CountersOk(r.home)
  {
    var t2 := AfterCounters(t, note, sameRenotes);
    if Truthy(note.renoteId) && sameRenotes == 0 {
      DecrementKeepsCounters(t, note.renoteId.value, false);
    }
    var t1 := if Truthy(note.renoteId) && sameRenotes == 0 then DecrementStep(t, note.renoteId.value, false) else t;
    if Truthy(note.replyId) {
      DecrementKeepsCounters(t1, note.replyId.value, true);
    }
    RemoveKeepsCounters(t2, note);
  }

  lemma RemoveKeepsCounters(t: Tables, note: Note)
    requires CountersOk(t.notes) && CountersOk(t.home)
    ensures var r := RemoveStep(t, note);
      CountersOk(r.notes) && CountersOk(r.home)
  {
    var r := RemoveStep(t, note);
    forall i | 0 <= i < |r.notes|
      ensures r.notes[i].renoteCount >= 0 && r.notes[i].repliesCount >= 0 && r.notes[i].score >= 0
    {
      assert r.notes[i] in t.notes;
    }
    forall i | 0 <= i < |r.home|
      ensures r.home[i].renoteCount >= 0 && r.home[i].repliesCount >= 0 && r.home[i].score >= 0
    {
      assert r.home[i] in t.home;
    }
  }

  /** Every home-timeline row of note `id` has its key among the keys of the decoded copies. */
  lemma CopiesCovered(home: seq<NoteRow>, id: string)
    ensures var copies := Copies(home, id);
      forall i :: 0 <= i < |home| && home[i].id == id && home[i].feedUserId.Some? ==>
        InKeys(home[i], CopyKeys(copies, |copies|))
  {
    var sel := Filter(home, IdIs(id));
    var copies := Copies(home, id);
    forall i | 0 <= i < |home| && home[i].id == id && home[i].feedUserId.Some?
      ensures InKeys(home[i], CopyKeys(copies, |copies|))
    {
      assert home[i] in sel;
      var j :| 0 <= j < |sel| && sel[j] == home[i];
      CopyKeyOfRow(home[i]);
      assert copies[j] == ParseHomeTimeline(home[i]);
      assert CopyKey(copies[j].value) in CopyKeys(copies, |copies|);
    }
  }

  /** After the remove step no row with the note's key and no home-timeline copy of it is left. */
  lemma RemoveStepEffect(t: Tables, note: Note)
    ensures var r := RemoveStep(t, note);
      (forall row :: row in r.notes ==> RowKey(row) != BoundKey(note))
      && (forall row :: row in r.home && row.feedUserId.Some? ==> row.id != note.id)
      && (forall row :: row in t.notes && RowKey(row) != BoundKey(note) ==> row in r.notes)
      && IsSubseq(r.notes, t.notes) && IsSubseq(r.home, t.home)
  {
    var copies := Copies(t.home, note.id);
    var keys := CopyKeys(copies, |copies|);
    CopiesCovered(t.home, note.id);
    FilterIsSubseq(t.notes, KeyIsNot(BoundKey(note)));
    FilterIsSubseq(t.home, HomeKeyNotIn(keys));
  }

  // ---------------------------------------------------------------------
  // The store

  class NoteStore {
    var tables: Tables

    constructor(t: Tables)
      ensures tables == t
    {
      tables := t;
    }

    /**
     * The loop over the copies of one note: each decoded copy's key is bound
     * into the home-timeline update.
     */
    method PropagateToCopies(id: string, c: Counters)
      modifies this
      ensures tables.notes == old(tables.notes)
      ensures var copies := Copies(old(tables.home), id);
        tables.home == UpdateHome(old(tables.home), CopyKeys(copies, |copies|), c)
    {
      var copies := Copies(tables.home, id);
      var h0 := tables.home;
      var h := h0;
      PropagateFirst(h0, copies, c);
      for i := 0 to |copies|
        invariant tables == old(tables)
        invariant h == UpdateHome(h0, CopyKeys(copies, i), c)
      {
        PropagateNext(h0, copies, i, c);
        h := NextHome(h, copies[i], c);
      }
      tables := tables.(home := h);
    }

    /** Decrements one note's counters and writes them to its copies (renote or reply step). */
    method CounterStep(targetId: string, replies: bool)
      modifies this
      ensures tables == DecrementStep(old(tables), targetId, replies)
    {
      var rs := Filter(tables.notes, IdIs(targetId));
      if |rs| > 0 {
        var target := ParseScyllaNote(rs[0]);
        var c := Decremented(target, replies);
        tables := tables.(notes := UpdateNotes(tables.notes, BoundKey(target), c));
        PropagateToCopies(target.id, c);
      }
    }

    /**
     * The default export of delete.ts against the store: counters, then
     * (unless `quiet`) the deliveries, then the removal. `sameRenotes` is the
     * author's count of other renotes of the same target.
     */
    method Delete(user: Author, note: Note, quiet: bool, sameRenotes: int, url: string)
      returns (deliveries: seq<Delivery>)
      modifies this
      ensures tables == DeleteTables(old(tables), note, sameRenotes)
      ensures quiet ==> deliveries == []
      ensures !quiet ==> deliveries == Deliveries(AfterCounters(old(tables), note, sameRenotes), user, note, url)
    {
      if Truthy(note.renoteId) && sameRenotes == 0 {
        CounterStep(note.renoteId.value, false);
      }
      if Truthy(note.replyId) {
        CounterStep(note.replyId.value, true);
      }
      deliveries := [];
      if !quiet {
        var own := NoteActivity(user, note, tables.notes, url);
        if own.Some? {
          deliveries := [own.value];
        }
        var cascading := Filter(FindCascadingNotes(tables.notes, note), NotLocalOnly);
        deliveries := deliveries + CascadeDeliveries(cascading, url);
      }
      RemoveNote(note);
    }

    /** The canonical row, then the home-timeline copies one by one. */
    method RemoveNote(note: Note)
      modifies this
      ensures tables == RemoveStep(old(tables), note)
    {
      var copies := Copies(tables.home, note.id);
      var h0 := tables.home;
      var h := h0;
      RemoveFirst(h0, copies);
      for i := 0 to |copies|
        invariant tables == old(tables)
        invariant h == Filter(h0, HomeKeyNotIn(CopyKeys(copies, i)))
      {
        RemoveNext(h0, copies, i);
        h := NextRemoved(h, copies[i]);
      }
      tables := Tables(Filter(tables.notes, KeyIsNot(BoundKey(note))), h);
    }
  }

  /** One iteration of the copy-propagation loop. */
  function NextHome(h: seq<NoteRow>, copy: Option<FeedNote>, c: Counters): seq<NoteRow> {
    if copy.Some? then UpdateHome(h, {CopyKey(copy.value)}, c) else h
  }

  /** One iteration of the copy-removal loop. */
  function NextRemoved(h: seq<NoteRow>, copy: Option<FeedNote>): seq<NoteRow> {
    if copy.Some? then Filter(h, HomeKeyNotIn({CopyKey(copy.value)})) else h
  }

  lemma PropagateFirst(h0: seq<NoteRow>, copies: seq<Option<FeedNote>>, c: Counters)
    ensures h0 == UpdateHome(h0, CopyKeys(copies, 0), c)
  {
    assert CopyKeys(copies, 0) == {};
    UpdateHomeNone(h0, c);
  }

  lemma PropagateNext(h0: seq<NoteRow>, copies: seq<Option<FeedNote>>, i: int, c: Counters)
    requires 0 <= i < |copies|
    ensures NextHome(UpdateHome(h0, CopyKeys(copies, i), c), copies[i], c) == UpdateHome(h0, CopyKeys(copies, i + 1), c)
  {
    CopyKeysNext(copies, i);
    if copies[i].Some? {
      UpdateHomeMore(h0, CopyKeys(copies, i), CopyKey(copies[i].value), c);
    } else {
      assert CopyKeys(copies, i + 1) == CopyKeys(copies, i);
    }
  }

  lemma RemoveFirst(h0: seq<NoteRow>, copies: seq<Option<FeedNote>>)
    ensures h0 == Filter(h0, HomeKeyNotIn(CopyKeys(copies, 0)))
  {
    assert CopyKeys(copies, 0) == {};
    FilterAll(h0, HomeKeyNotIn({}));
  }

  lemma RemoveNext(h0: seq<NoteRow>, copies: seq<Option<FeedNote>>, i: int)
    requires 0 <= i < |copies|
    ensures NextRemoved(Filter(h0, HomeKeyNotIn(CopyKeys(copies, i))), copies[i]) == Filter(h0, HomeKeyNotIn(CopyKeys(copies, i + 1)))
  {
    CopyKeysNext(copies, i);
    if copies[i].Some? {
      RemoveHomeMore(h0, CopyKeys(copies, i), CopyKey(copies[i].value));
    } else {
      assert CopyKeys(copies, i + 1) == CopyKeys(copies, i);
    }
  }

  /** Updating no key changes nothing. */
  lemma UpdateHomeNone(rows: seq<NoteRow>, c: Counters)
    ensures UpdateHome(rows, {}, c) == rows
  {
  }

  lemma CopyKeysNext(copies: seq<Option<FeedNote>>, i: int)
    requires 0 <= i < |copies|
    ensures CopyKeys(copies, i + 1) == CopyKeys(copies, i) + (if copies[i].Some? then {CopyKey(copies[i].value)} else {})
  {
  }

  /** Updating one more key after a set of keys is updating the union. */
  lemma UpdateHomeMore(rows: seq<NoteRow>, keys: set<HomeKey>, k: HomeKey, c: Counters)
    ensures UpdateHome(UpdateHome(rows, keys, c), {k}, c) == UpdateHome(rows, keys + {k}, c)
  {
    var a := UpdateHome(UpdateHome(rows, keys, c), {k}, c);
    var b := UpdateHome(rows, keys + {k}, c);
    forall i | 0 <= i < |rows|
      ensures a[i] == b[i]
    {
      assert InKeys(rows[i], keys + {k}) <==> InKeys(rows[i], keys) || InKeys(rows[i], {k});
    }
  }

  /** Deleting one more key after a set of keys is deleting the union. */
  lemma RemoveHomeMore(rows: seq<NoteRow>, keys: set<HomeKey>, k: HomeKey)
    ensures Filter(Filter(rows, HomeKeyNotIn(keys)), HomeKeyNotIn({k})) == Filter(rows, HomeKeyNotIn(keys + {k}))
  {
    FilterFuse(rows, HomeKeyNotIn(keys), HomeKeyNotIn({k}));
    FilterExt(rows, (row: NoteRow) => HomeKeyNotIn(keys)(row) && HomeKeyNotIn({k})(row), HomeKeyNotIn(keys + {k}));
  }
}

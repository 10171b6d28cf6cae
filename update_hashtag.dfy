/**
 * Hashtag bookkeeping (services/update-hashtag.ts): every hashtag has an
 * index row that lists the users who mentioned it in a post and the users
 * who attached it to their profile, each split into local and remote
 * users, with a count beside every list. Posting a tag mentions it and
 * feeds the trend stream; editing a profile attaches the new tags and
 * detaches the dropped ones.
 */
module HashtagIndex {
  import opened Common

  /** One list of an index row and the count stored beside it. */
  datatype Tally = Tally(ids: seq<string>, count: int)

  /** A `hashtag` row. */
  datatype Hashtag = Hashtag(
    id: string,
    name: string,
    mentioned: Tally,
    mentionedLocal: Tally,
    mentionedRemote: Tally,
    attached: Tally,
    attachedLocal: Tally,
    attachedRemote: Tally)

  /** The user a tag is recorded for: its id, and its host (`None` for a local user). */
  datatype Poster = Poster(id: string, host: Option<string>)

  /** `Users.isLocalUser`; `Users.isRemoteUser` is its negation. */
  predicate IsLocal(u: Poster) {
    u.host.None?
  }

  /** One entry of the `trendtag` stream: the normalised tag and the poster. */
  datatype TrendEntry = TrendEntry(tag: string, userId: string)

  /** One `hashtagChart.update(tag, user)` call. */
  datatype ChartHit = ChartHit(tag: string, userId: string)

  // ---------------------------------------------------------------------
  // The writes on one list

  const NoOne := Tally([], 0)

  function Only(id: string): Tally {
    Tally([id], 1)
  }

  /** `array_append` with `+ 1`, issued only when the user is not listed yet. */
  function AddUser(t: Tally, id: string): Tally {
    if id in t.ids then t else Tally(t.ids + [id], t.count + 1)
  }

  function IsNot(id: string): string -> bool {
    (x: string) => x != id
  }

  /** `array_remove` (every occurrence) with `- 1`, issued whether or not the user is listed. */
  function RemoveUser(t: Tally, id: string): Tally {
    Tally(Filter(t.ids, IsNot(id)), t.count - 1)
  }

  /** Every list is duplicate-free and its count is its length. */
  predicate TallyOk(t: Tally) {
    NoDup(t.ids) && t.count == |t.ids|
  }

  predicate Consistent(h: Hashtag) {
    TallyOk(h.mentioned) && TallyOk(h.mentionedLocal) && TallyOk(h.mentionedRemote)
    && TallyOk(h.attached) && TallyOk(h.attachedLocal) && TallyOk(h.attachedRemote)
  }

  /** Adding keeps a list sound and lists the user; the count grows by one exactly when the user was absent. */
  lemma AddUserSound(t: Tally, id: string)
    ensures id in AddUser(t, id).ids
    ensures forall x :: x in t.ids ==> x in AddUser(t, id).ids
    ensures AddUser(t, id).count == if id in t.ids then t.count else t.count + 1
    ensures TallyOk(t) ==> TallyOk(AddUser(t, id))
  {
  }

  lemma {:induction false} FilterRemovesOne(s: seq<string>, id: string)
    requires NoDup(s)
    ensures NoDup(Filter(s, IsNot(id)))
    ensures |Filter(s, IsNot(id))| == if id in s then |s| - 1 else |s|
    decreases |s|
  {
    if |s| > 0 {
      assert s == [s[0]] + s[1..];
      FilterRemovesOne(s[1..], id);
      assert forall x :: x in s[1..] ==> x != s[0];
      var rest := Filter(s[1..], IsNot(id));
      if s[0] != id {
        assert Filter(s, IsNot(id)) == [s[0]] + rest;
        assert s[0] !in rest;
      } else {
        assert Filter(s, IsNot(id)) == rest;
        assert id !in s[1..];
      }
    }
  }

  /**
   * Removing unlists the user; on a sound list that held the user it
   * keeps the list sound, but it lowers the count also when the user was
   * not listed, so such a list no longer matches its count.
   */
  lemma RemoveUserSound(t: Tally, id: string)
    ensures id !in RemoveUser(t, id).ids
    ensures forall x :: x in RemoveUser(t, id).ids <==> x in t.ids && x != id
    ensures RemoveUser(t, id).count == t.count - 1
    ensures TallyOk(t) && id in t.ids ==> TallyOk(RemoveUser(t, id))
    ensures TallyOk(t) && id !in t.ids ==> !TallyOk(RemoveUser(t, id))
  {
    if TallyOk(t) {
      FilterRemovesOne(t.ids, id);
    }
  }

  // ---------------------------------------------------------------------
  // The update of an existing row

  /** `isUserAttached && increment`: the user joins the attached list and its local or remote part. */
  function Attach(h: Hashtag, u: Poster): Hashtag {
    h.(attached := AddUser(h.attached, u.id),
       attachedLocal := if IsLocal(u) then AddUser(h.attachedLocal, u.id) else h.attachedLocal,
       attachedRemote := if !IsLocal(u) then AddUser(h.attachedRemote, u.id) else h.attachedRemote)
  }

  /** `isUserAttached && !increment`: the user leaves the attached list and its local or remote part. */
  function Detach(h: Hashtag, u: Poster): Hashtag {
    h.(attached := RemoveUser(h.attached, u.id),
       attachedLocal := if IsLocal(u) then RemoveUser(h.attachedLocal, u.id) else h.attachedLocal,
       attachedRemote := if !IsLocal(u) then RemoveUser(h.attachedRemote, u.id) else h.attachedRemote)
  }

  /** `!isUserAttached`: the user joins the mentioned list and its local or remote part, whatever `increment` says. */
  function Mention(h: Hashtag, u: Poster): Hashtag {
    h.(mentioned := AddUser(h.mentioned, u.id),
       mentionedLocal := if IsLocal(u) then AddUser(h.mentionedLocal, u.id) else h.mentionedLocal,
       mentionedRemote := if !IsLocal(u) then AddUser(h.mentionedRemote, u.id) else h.mentionedRemote)
  }

  function Changed(h: Hashtag, u: Poster, attached: bool, increment: bool): Hashtag {
    if attached then (if increment then Attach(h, u) else Detach(h, u)) else Mention(h, u)
  }

  /** The row a first use inserts: the user in the attached or the mentioned group only. */
  function Fresh(id: string, name: string, u: Poster, attached: bool): Hashtag {
    var one := Only(u.id);
    var local := if IsLocal(u) then one else NoOne;
    var remote := if IsLocal(u) then NoOne else one;
    if attached then Hashtag(id, name, NoOne, NoOne, NoOne, one, local, remote)
    else Hashtag(id, name, one, local, remote, NoOne, NoOne, NoOne)
  }

  /** Attaching lists the user in the attached list and in the part its locality picks, and keeps a sound row sound. */
  lemma AttachSound(h: Hashtag, u: Poster)
    ensures var h' := Attach(h, u);
      u.id in h'.attached.ids
      && (IsLocal(u) ==> u.id in h'.attachedLocal.ids && h'.attachedRemote == h.attachedRemote)
      && (!IsLocal(u) ==> u.id in h'.attachedRemote.ids && h'.attachedLocal == h.attachedLocal)
      && (u.id in h.attached.ids ==> h'.attached == h.attached)
      && h'.mentioned == h.mentioned && h'.mentionedLocal == h.mentionedLocal && h'.mentionedRemote == h.mentionedRemote
      && (Consistent(h) ==> Consistent(h'))
  {
    AddUserSound(h.attached, u.id);
    AddUserSound(h.attachedLocal, u.id);
    AddUserSound(h.attachedRemote, u.id);
  }

  /** Mentioning lists the user in the mentioned list and in the part its locality picks, and keeps a sound row sound. */
  lemma MentionSound(h: Hashtag, u: Poster)
    ensures var h' := Mention(h, u);
      u.id in h'.mentioned.ids
      && (IsLocal(u) ==> u.id in h'.mentionedLocal.ids && h'.mentionedRemote == h.mentionedRemote)
      && (!IsLocal(u) ==> u.id in h'.mentionedRemote.ids && h'.mentionedLocal == h.mentionedLocal)
      && (u.id in h.mentioned.ids ==> h'.mentioned == h.mentioned)
      && h'.attached == h.attached && h'.attachedLocal == h.attachedLocal && h'.attachedRemote == h.attachedRemote
      && (Consistent(h) ==> Consistent(h'))
  {
    AddUserSound(h.mentioned, u.id);
    AddUserSound(h.mentionedLocal, u.id);
    AddUserSound(h.mentionedRemote, u.id);
  }

  /**
   * Detaching unlists the user and lowers the counts by one. A sound row
   * that listed the user stays sound; a sound row that did not list it in
   * the attached list is left with a count one below its list.
   */
  lemma DetachSound(h: Hashtag, u: Poster)
    ensures var h' := Detach(h, u);
      u.id !in h'.attached.ids && h'.attached.count == h.attached.count - 1
      && (IsLocal(u) ==> u.id !in h'.attachedLocal.ids && h'.attachedLocal.count == h.attachedLocal.count - 1)
      && (!IsLocal(u) ==> u.id !in h'.attachedRemote.ids && h'.attachedRemote.count == h.attachedRemote.count - 1)
      && h'.mentioned == h.mentioned && h'.mentionedLocal == h.mentionedLocal && h'.mentionedRemote == h.mentionedRemote
      && ((Consistent(h) && u.id in h.attached.ids
           && (if IsLocal(u) then u.id in h.attachedLocal.ids else u.id in h.attachedRemote.ids)) ==> Consistent(h'))
      && (Consistent(h) && u.id !in h.attached.ids ==> !Consistent(h'))
  {
    RemoveUserSound(h.attached, u.id);
    RemoveUserSound(h.attachedLocal, u.id);
    RemoveUserSound(h.attachedRemote, u.id);
  }

  /** A new row is sound and holds `[user]` in exactly one group, split by the user's locality. */
  lemma FreshSound(id: string, name: string, u: Poster, attached: bool)
    ensures var h := Fresh(id, name, u, attached);
      Consistent(h) && h.id == id && h.name == name
      && (attached ==> h.attached.ids == [u.id] && h.mentioned.ids == [] && h.mentionedLocal.ids == [] && h.mentionedRemote.ids == [])
      && (!attached ==> h.mentioned.ids == [u.id] && h.attached.ids == [] && h.attachedLocal.ids == [] && h.attachedRemote.ids == [])
      && (attached ==> (h.attachedLocal.ids == (if IsLocal(u) then [u.id] else [])
                        && h.attachedRemote.ids == (if IsLocal(u) then [] else [u.id])))
      && (!attached ==> (h.mentionedLocal.ids == (if IsLocal(u) then [u.id] else [])
                         && h.mentionedRemote.ids == (if IsLocal(u) then [] else [u.id])))
  {
  }

  /** The `set` object `updateHashtag` builds for an existing row, applied to it. */
  method ChangedRow(index: Hashtag, u: Poster, attached: bool, increment: bool) returns (h: Hashtag)
    ensures h == Changed(index, u, attached, increment)
  {
    h := index;
    if attached {
      if increment {
        if u.id !in index.attached.ids {
          h := h.(attached := Tally(h.attached.ids + [u.id], h.attached.count + 1));
        }
        if IsLocal(u) && u.id !in index.attachedLocal.ids {
          h := h.(attachedLocal := Tally(h.attachedLocal.ids + [u.id], h.attachedLocal.count + 1));
        }
        if !IsLocal(u) && u.id !in index.attachedRemote.ids {
          h := h.(attachedRemote := Tally(h.attachedRemote.ids + [u.id], h.attachedRemote.count + 1));
        }
      } else {
        h := h.(attached := RemoveUser(h.attached, u.id));
        if IsLocal(u) {
          h := h.(attachedLocal := RemoveUser(h.attachedLocal, u.id));
        } else {
          h := h.(attachedRemote := RemoveUser(h.attachedRemote, u.id));
        }
      }
    } else {
      if u.id !in index.mentioned.ids {
        h := h.(mentioned := Tally(h.mentioned.ids + [u.id], h.mentioned.count + 1));
      }
      if IsLocal(u) && u.id !in index.mentionedLocal.ids {
        h := h.(mentionedLocal := Tally(h.mentionedLocal.ids + [u.id], h.mentionedLocal.count + 1));
      }
      if !IsLocal(u) && u.id !in index.mentionedRemote.ids {
        h := h.(mentionedRemote := Tally(h.mentionedRemote.ids + [u.id], h.mentionedRemote.count + 1));
      }
    }
  }

  // ---------------------------------------------------------------------
  // The table

  /** The index rows after `updateHashtag` for the normalised `name`; `id` is what `genId` returns. */
  function RowsAfter(rows: map<string, Hashtag>, u: Poster, name: string, attached: bool, increment: bool, id: string): map<string, Hashtag> {
    if name in rows then rows[name := Changed(rows[name], u, attached, increment)]
    else if !increment then rows
    else rows[name := Fresh(id, name, u, attached)]
  }

  /** The chart calls of that `updateHashtag`: one on the mention path, unless it returned early. */
  function ChartAfter(rows: map<string, Hashtag>, u: Poster, name: string, attached: bool, increment: bool): seq<ChartHit> {
    if (name !in rows && !increment) || attached then [] else [ChartHit(name, u.id)]
  }

  /**
   * Without a row, a decrement changes nothing and updates no chart; an
   * update touches only the row of its own name; a row it leaves or
   * creates is sound when the rows were.
   */
  lemma RowsAfterSound(rows: map<string, Hashtag>, u: Poster, name: string, attached: bool, increment: bool, id: string)
    ensures name !in rows && !increment ==>
      RowsAfter(rows, u, name, attached, increment, id) == rows && ChartAfter(rows, u, name, attached, increment) == []
    ensures var r := RowsAfter(rows, u, name, attached, increment, id);
      forall k :: k != name ==> (k in r <==> k in rows) && (k in rows ==> r[k] == rows[k])
    ensures name !in rows && increment ==> RowsAfter(rows, u, name, attached, increment, id)[name] == Fresh(id, name, u, attached)
    ensures name in rows && Consistent(rows[name]) && !(attached && !increment) ==>
      Consistent(RowsAfter(rows, u, name, attached, increment, id)[name])
  {
    if name in rows && Consistent(rows[name]) {
      AttachSound(rows[name], u);
      MentionSound(rows[name], u);
    }
  }

  /** `updateHashtag` over every tag of `tags` in order, each under its normalised name. */
  function Fold(rows: map<string, Hashtag>, u: Poster, tags: seq<string>, attached: bool, increment: bool,
                normalize: string -> string, genId: string -> string): map<string, Hashtag>
    decreases |tags|
  {
    if |tags| == 0 then rows
    else
      var name := normalize(tags[|tags| - 1]);
      RowsAfter(Fold(rows, u, tags[..|tags| - 1], attached, increment, normalize, genId), u, name, attached, increment, genId(name))
  }

  /** The chart calls of `Fold`, in order. */
  function FoldCharts(rows: map<string, Hashtag>, u: Poster, tags: seq<string>, attached: bool, increment: bool,
                      normalize: string -> string, genId: string -> string): seq<ChartHit>
    decreases |tags|
  {
    if |tags| == 0 then []
    else
      var init := tags[..|tags| - 1];
      FoldCharts(rows, u, init, attached, increment, normalize, genId)
      + ChartAfter(Fold(rows, u, init, attached, increment, normalize, genId), u, normalize(tags[|tags| - 1]), attached, increment)
  }

  /** The stream entries `updateHashtags` queues, in order. */
  function TrendEntries(u: Poster, tags: seq<string>, normalize: string -> string): (r: seq<TrendEntry>)
    ensures |r| == |tags|
    ensures forall i :: 0 <= i < |tags| ==> r[i] == TrendEntry(normalize(tags[i]), u.id)
    decreases |tags|
  {
    if |tags| == 0 then []
    else TrendEntries(u, tags[..|tags| - 1], normalize) + [TrendEntry(normalize(tags[|tags| - 1]), u.id)]
  }

  /** A fold only touches the rows of the names it visits. */
  lemma {:induction false} FoldFrame(rows: map<string, Hashtag>, u: Poster, tags: seq<string>, attached: bool, increment: bool,
                                     normalize: string -> string, genId: string -> string, k: string)
    requires forall t :: t in tags ==> normalize(t) != k
    ensures var r := Fold(rows, u, tags, attached, increment, normalize, genId);
      (k in r <==> k in rows) && (k in rows ==> r[k] == rows[k])
    decreases |tags|
  {
    if |tags| > 0 {
      var init := tags[..|tags| - 1];
      assert forall t :: t in init ==> t in tags;
      assert tags[|tags| - 1] in tags;
      FoldFrame(rows, u, init, attached, increment, normalize, genId, k);
      var prev := Fold(rows, u, init, attached, increment, normalize, genId);
      var name := normalize(tags[|tags| - 1]);
      RowsAfterSound(prev, u, name, attached, increment, genId(name));
    }
  }

  /** After attaching every tag, each one's row exists and lists the user as attached. */
  lemma {:induction false} FoldAttachLists(rows: map<string, Hashtag>, u: Poster, tags: seq<string>,
                                           normalize: string -> string, genId: string -> string)
    ensures var r := Fold(rows, u, tags, true, true, normalize, genId);
      forall t :: t in tags ==> normalize(t) in r && u.id in r[normalize(t)].attached.ids
    decreases |tags|
  {
    if |tags| > 0 {
      var init := tags[..|tags| - 1];
      var last := tags[|tags| - 1];
      FoldAttachLists(rows, u, init, normalize, genId);
      var prev := Fold(rows, u, init, true, true, normalize, genId);
      var name := normalize(last);
      var r := RowsAfter(prev, u, name, true, true, genId(name));
      RowsAfterSound(prev, u, name, true, true, genId(name));
      if name in prev {
        AttachSound(prev[name], u);
      }
      forall t | t in tags
        ensures normalize(t) in r && u.id in r[normalize(t)].attached.ids
      {
        if t != last {
          assert t in init by {
            var i :| 0 <= i < |tags| && tags[i] == t;
            assert i < |tags| - 1;
            assert init[i] == t;
          }
        }
      }
    }
  }

  /** After detaching every tag, no row of those names lists the user as attached. */
  lemma {:induction false} FoldDetachUnlists(rows: map<string, Hashtag>, u: Poster, tags: seq<string>,
                                             normalize: string -> string, genId: string -> string)
    ensures var r := Fold(rows, u, tags, true, false, normalize, genId);
      forall t :: t in tags && normalize(t) in r ==> u.id !in r[normalize(t)].attached.ids
    decreases |tags|
  {
    if |tags| > 0 {
      var init := tags[..|tags| - 1];
      var last := tags[|tags| - 1];
      FoldDetachUnlists(rows, u, init, normalize, genId);
      var prev := Fold(rows, u, init, true, false, normalize, genId);
      var name := normalize(last);
      var r := RowsAfter(prev, u, name, true, false, genId(name));
      RowsAfterSound(prev, u, name, true, false, genId(name));
      if name in prev {
        DetachSound(prev[name], u);
      }
      forall t | t in tags && normalize(t) in r
        ensures u.id !in r[normalize(t)].attached.ids
      {
        if normalize(t) != name {
          assert t in init by {
            var i :| 0 <= i < |tags| && tags[i] == t;
            assert i < |tags| - 1;
            assert init[i] == t;
          }
        }
      }
    }
  }

  /** A detaching fold neither removes nor creates a row. */
  lemma {:induction false} FoldKeepsKeys(rows: map<string, Hashtag>, u: Poster, tags: seq<string>,
                                         normalize: string -> string, genId: string -> string, k: string)
    ensures k in Fold(rows, u, tags, true, false, normalize, genId) <==> k in rows
    decreases |tags|
  {
    if |tags| > 0 {
      var init := tags[..|tags| - 1];
      FoldKeepsKeys(rows, u, init, normalize, genId, k);
      var prev := Fold(rows, u, init, true, false, normalize, genId);
      var name := normalize(tags[|tags| - 1]);
      RowsAfterSound(prev, u, name, true, false, genId(name));
    }
  }

  /** The tags of a profile edit that leave it: `(user.tags || []).filter((x) => !tags.includes(x))`. */
  function DroppedTags(oldTags: seq<string>, tags: seq<string>): (r: seq<string>)
    ensures forall t :: t in r <==> t in oldTags && t !in tags
  {
    Filter(oldTags, (x: string) => x !in tags)
  }

  /** The rows after `updateUsertags`: every new tag attached, then every dropped tag detached. */
  function UsertagsRows(rows: map<string, Hashtag>, u: Poster, tags: seq<string>, oldTags: seq<string>,
                        normalize: string -> string, genId: string -> string): map<string, Hashtag> {
    Fold(Fold(rows, u, tags, true, true, normalize, genId), u, DroppedTags(oldTags, tags), true, false, normalize, genId)
  }

  /**
   * For tags already in normalised form (as the profile editor stores
   * them), a profile edit leaves the user attached to every new tag and to
   * none of the dropped ones, and creates no row for a dropped tag.
   */
  lemma UsertagsSound(rows: map<string, Hashtag>, u: Poster, tags: seq<string>, oldTags: seq<string>,
                      normalize: string -> string, genId: string -> string)
    requires forall t :: t in tags || t in oldTags ==> normalize(t) == t
    ensures var r := UsertagsRows(rows, u, tags, oldTags, normalize, genId);
      (forall t :: t in tags ==> t in r && u.id in r[t].attached.ids)
      && (forall t :: t in oldTags && t !in tags ==> (t in r <==> t in rows) && (t in r ==> u.id !in r[t].attached.ids))
  {
    var mid := Fold(rows, u, tags, true, true, normalize, genId);
    var dropped := DroppedTags(oldTags, tags);
    FoldAttachLists(rows, u, tags, normalize, genId);
    FoldDetachUnlists(mid, u, dropped, normalize, genId);
    forall t | t in tags
      ensures t in UsertagsRows(rows, u, tags, oldTags, normalize, genId)
        && u.id in UsertagsRows(rows, u, tags, oldTags, normalize, genId)[t].attached.ids
    {
      FoldFrame(mid, u, dropped, true, false, normalize, genId, t);
    }
    forall t | t in oldTags && t !in tags
      ensures t in UsertagsRows(rows, u, tags, oldTags, normalize, genId) <==> t in rows
    {
      FoldFrame(rows, u, tags, true, true, normalize, genId, t);
      FoldKeepsKeys(mid, u, dropped, normalize, genId, t);
    }
  }

  // ---------------------------------------------------------------------
  // The store

  /**
   * The hashtag table, the `trendtag` stream and the hashtag chart as the
   * three functions write them.
   */
  class HashtagStore {
    var rows: map<string, Hashtag>
    var trend: seq<TrendEntry>
    var chart: seq<ChartHit>

    constructor(rows0: map<string, Hashtag>)
      ensures rows == rows0 && trend == [] && chart == []
    {
      rows := rows0;
      trend := [];
      chart := [];
    }

    /** `updateHashtag(user, tag, isUserAttached, increment)`; `genId` gives the id of a row it inserts. */
    method UpdateHashtag(u: Poster, tag: string, attached: bool, increment: bool,
                         normalize: string -> string, genId: string -> string)
      modifies this
      ensures rows == RowsAfter(old(rows), u, normalize(tag), attached, increment, genId(normalize(tag)))
      ensures chart == old(chart) + ChartAfter(old(rows), u, normalize(tag), attached, increment)
      ensures trend == old(trend)
    {
      var name := normalize(tag);
      if name !in rows && !increment {
        return;
      }
      if name in rows {
        var index := rows[name];
        var h := ChangedRow(index, u, attached, increment);
        if h != index {
          rows := rows[name := h];
        }
      } else {
        rows := rows[name := Fresh(genId(name), name, u, attached)];
      }
      if !attached {
        chart := chart + [ChartHit(name, u.id)];
      }
    }

    /** `updateUsertags(user, tags)`, where `oldTags` is `user.tags || []`. */
    method UpdateUsertags(u: Poster, tags: seq<string>, oldTags: seq<string>,
                          normalize: string -> string, genId: string -> string)
      modifies this
      ensures rows == UsertagsRows(old(rows), u, tags, oldTags, normalize, genId)
      ensures chart == old(chart) && trend == old(trend)
    {
      ghost var rows0 := rows;
      for i := 0 to |tags|
        invariant rows == Fold(rows0, u, tags[..i], true, true, normalize, genId)
        invariant chart == old(chart) && trend == old(trend)
      {
        assert tags[..i + 1][..i] == tags[..i];
        UpdateHashtag(u, tags[i], true, true, normalize, genId);
      }
      assert tags[..|tags|] == tags;
      ghost var rows1 := rows;
      var dropped := DroppedTags(oldTags, tags);
      for i := 0 to |dropped|
        invariant rows == Fold(rows1, u, dropped[..i], true, false, normalize, genId)
        invariant chart == old(chart) && trend == old(trend)
      {
        assert dropped[..i + 1][..i] == dropped[..i];
        UpdateHashtag(u, dropped[i], true, false, normalize, genId);
      }
      assert dropped[..|dropped|] == dropped;
    }

    /** `updateHashtags(user, tags)`: one stream entry and one mention per tag. */
    method UpdateHashtags(u: Poster, tags: seq<string>, normalize: string -> string, genId: string -> string)
      modifies this
      ensures rows == Fold(old(rows), u, tags, false, true, normalize, genId)
      ensures chart == old(chart) + FoldCharts(old(rows), u, tags, false, true, normalize, genId)
      ensures trend == old(trend) + TrendEntries(u, tags, normalize)
    {
      ghost var rows0 := rows;
      for i := 0 to |tags|
        invariant rows == Fold(rows0, u, tags[..i], false, true, normalize, genId)
        invariant chart == old(chart) + FoldCharts(rows0, u, tags[..i], false, true, normalize, genId)
        invariant trend == old(trend) + TrendEntries(u, tags[..i], normalize)
      {
        assert tags[..i + 1][..i] == tags[..i];
        trend := trend + [TrendEntry(normalize(tags[i]), u.id)];
        UpdateHashtag(u, tags[i], false, true, normalize, genId);
      }
      assert tags[..|tags|] == tags;
    }
  }

  /** Posting tags mentions each one and updates the chart once per tag. */
  lemma {:induction false} MentionsCharted(rows: map<string, Hashtag>, u: Poster, tags: seq<string>,
                        normalize: string -> string, genId: string -> string)
    ensures |FoldCharts(rows, u, tags, false, true, normalize, genId)| == |tags|
    ensures var r := Fold(rows, u, tags, false, true, normalize, genId);
      forall t :: t in tags ==> normalize(t) in r && u.id in r[normalize(t)].mentioned.ids
    decreases |tags|
  {
    if |tags| > 0 {
      var init := tags[..|tags| - 1];
      var last := tags[|tags| - 1];
      MentionsCharted(rows, u, init, normalize, genId);
      var prev := Fold(rows, u, init, false, true, normalize, genId);
      var name := normalize(last);
      var r := RowsAfter(prev, u, name, false, true, genId(name));
      RowsAfterSound(prev, u, name, false, true, genId(name));
      if name in prev {
        MentionSound(prev[name], u);
      }
      forall t | t in tags
        ensures normalize(t) in r && u.id in r[normalize(t)].mentioned.ids
      {
        if t != last {
          assert t in init by {
            var i :| 0 <= i < |tags| && tags[i] == t;
            assert i < |tags| - 1;
            assert init[i] == t;
          }
        }
      }
    }
  }
}

/**
 * The trending hashtags (server/api/endpoints/hashtags/trend.ts), store
 * branch: the `trendtag` stream is read whole, every tag outside the
 * instance's hidden list collects the distinct users who posted it, and
 * the five tags with the most users are returned with their user counts.
 */
module HashtagTrend {
  import opened Common
  import opened HashtagIndex

  /** `max`: how many tags the endpoint returns. */
  const MaxTrends := 5

  /** One element of the `tags` array the loop builds. */
  datatype TagUsers = TagUsers(name: string, users: seq<string>)

  /** One element of the answer. */
  datatype TrendStat = TrendStat(tag: string, chart: seq<int>, usersCount: int)

  function UserCount(t: TagUsers): int { |t.users| }

  function TagName(t: TagUsers): string { t.name }

  // ---------------------------------------------------------------------
  // A reference definition: who posted a tag

  /** The posters of `tag` in stream order, repeats included. */
  function EntryUsers(entries: seq<TrendEntry>, tag: string): (r: seq<string>)
    ensures forall u :: u in r <==> TrendEntry(tag, u) in entries
    decreases |entries|
  {
    if |entries| == 0 then []
    else
      var init := entries[..|entries| - 1];
      var e := entries[|entries| - 1];
      assert entries == init + [e];
      EntryUsers(init, tag) + (if e.tag == tag then [e.userId] else [])
  }

  /** The distinct posters of `tag`, in the order of their first entry. */
  function UsersOf(entries: seq<TrendEntry>, tag: string): (r: seq<string>)
    ensures NoDup(r)
  {
    Distinct(EntryUsers(entries, tag))
  }

  /** A user is among the posters of `tag` exactly when the stream holds an entry of that user with that tag. */
  lemma UsersOfMembers(entries: seq<TrendEntry>, tag: string)
    ensures forall u :: u in UsersOf(entries, tag) <==> TrendEntry(tag, u) in entries
  {
  }

  // ---------------------------------------------------------------------
  // The loop

  /** `tags.findIndex((tag) => tag.name === name)` */
  function FindTag(tags: seq<TagUsers>, name: string): (r: int)
    ensures -1 <= r < |tags|
    ensures r >= 0 ==> tags[r].name == name
    ensures r < 0 ==> forall k :: 0 <= k < |tags| ==> tags[k].name != name
    decreases |tags|
  {
    if |tags| == 0 then -1
    else if tags[0].name == name then 0
    else
      var r := FindTag(tags[1..], name);
      if r < 0 then -1 else r + 1
  }

  /** One iteration over a stream entry. */
  function Collect(tags: seq<TagUsers>, e: TrendEntry, hidden: seq<string>): seq<TagUsers> {
    if e.tag in hidden then tags
    else
      var index := FindTag(tags, e.tag);
      if index >= 0 && e.userId !in tags[index].users then
        tags[index := TagUsers(e.tag, tags[index].users + [e.userId])]
      else if index < 0 then tags + [TagUsers(e.tag, [e.userId])]
      else tags
  }

  /** The `tags` array after the loop over `entries`. */
  function Aggregate(entries: seq<TrendEntry>, hidden: seq<string>): seq<TagUsers>
    decreases |entries|
  {
    if |entries| == 0 then []
    else Collect(Aggregate(entries[..|entries| - 1], hidden), entries[|entries| - 1], hidden)
  }

  /** No two collected tags share a name. */
  ghost predicate Named(tags: seq<TagUsers>) {
    forall i, j :: 0 <= i < j < |tags| ==> tags[i].name != tags[j].name
  }

  /** No collected tag is hidden, and each holds exactly its distinct posters, in first-entry order. */
  ghost predicate Holds(tags: seq<TagUsers>, entries: seq<TrendEntry>, hidden: seq<string>) {
    forall k :: 0 <= k < |tags| ==>
      tags[k].name !in hidden && tags[k].users == UsersOf(entries, tags[k].name) && |tags[k].users| > 0
  }

  /** Every unhidden tag of the stream was collected. */
  ghost predicate Covers(tags: seq<TagUsers>, entries: seq<TrendEntry>, hidden: seq<string>) {
    forall e :: e in entries && e.tag !in hidden ==> exists k :: 0 <= k < |tags| && tags[k].name == e.tag
  }

  ghost predicate Aggregated(tags: seq<TagUsers>, entries: seq<TrendEntry>, hidden: seq<string>) {
    Named(tags) && Holds(tags, entries, hidden) && Covers(tags, entries, hidden)
  }

  lemma EntryUsersSnoc(entries: seq<TrendEntry>, e: TrendEntry, tag: string)
    ensures EntryUsers(entries + [e], tag) == EntryUsers(entries, tag) + (if e.tag == tag then [e.userId] else [])
  {
    assert (entries + [e])[..|entries|] == entries;
  }

  /** One more entry adds its poster to its tag's posters if new there, and changes no other tag's. */
  lemma UsersOfSnoc(entries: seq<TrendEntry>, e: TrendEntry, tag: string)
    ensures UsersOf(entries + [e], tag)
      == if e.tag == tag && e.userId !in UsersOf(entries, tag) then UsersOf(entries, tag) + [e.userId]
         else UsersOf(entries, tag)
  {
    EntryUsersSnoc(entries, e, tag);
    var before := EntryUsers(entries, tag);
    if e.tag == tag {
      assert EntryUsers(entries + [e], tag) == before + [e.userId];
      DistinctSnoc(before, e.userId);
      assert e.userId in UsersOf(entries, tag) <==> e.userId in before;
    } else {
      assert EntryUsers(entries + [e], tag) == before;
    }
  }

  /** With no entry of `tag`, `tag` has no posters. */
  lemma {:induction false} NoPosters(entries: seq<TrendEntry>, tag: string)
    requires forall e :: e in entries ==> e.tag != tag
    ensures UsersOf(entries, tag) == []
    decreases |entries|
  {
    if |entries| > 0 {
      var init := entries[..|entries| - 1];
      assert entries == init + [entries[|entries| - 1]];
      NoPosters(init, tag);
    }
  }

  lemma CollectNamed(tags: seq<TagUsers>, e: TrendEntry, hidden: seq<string>)
    requires Named(tags)
    ensures Named(Collect(tags, e, hidden))
  {
  }

  /** A hidden entry, or one whose poster is already listed, changes nothing. */
  lemma CollectHoldsUnchanged(tags: seq<TagUsers>, entries: seq<TrendEntry>, e: TrendEntry, hidden: seq<string>)
    requires Holds(tags, entries, hidden)
    requires e.tag in hidden || exists k :: 0 <= k < |tags| && tags[k].name == e.tag && e.userId in tags[k].users
    ensures Holds(tags, entries + [e], hidden)
  {
    forall k | 0 <= k < |tags|
      ensures tags[k].users == UsersOf(entries + [e], tags[k].name)
    {
      UsersOfSnoc(entries, e, tags[k].name);
    }
  }

  /** A new poster of a collected tag is appended to that tag. */
  lemma CollectHoldsPush(tags: seq<TagUsers>, entries: seq<TrendEntry>, e: TrendEntry, hidden: seq<string>, index: int)
    requires Named(tags) && Holds(tags, entries, hidden)
    requires 0 <= index < |tags| && tags[index].name == e.tag && e.userId !in tags[index].users
    ensures Holds(tags[index := TagUsers(e.tag, tags[index].users + [e.userId])], entries + [e], hidden)
  {
    var r := tags[index := TagUsers(e.tag, tags[index].users + [e.userId])];
    forall k | 0 <= k < |r|
      ensures r[k].users == UsersOf(entries + [e], r[k].name)
    {
      UsersOfSnoc(entries, e, r[k].name);
    }
  }

  /** The first entry of a tag opens it with its poster. */
  lemma CollectHoldsOpen(tags: seq<TagUsers>, entries: seq<TrendEntry>, e: TrendEntry, hidden: seq<string>)
    requires Holds(tags, entries, hidden) && Covers(tags, entries, hidden) && e.tag !in hidden
    requires forall k :: 0 <= k < |tags| ==> tags[k].name != e.tag
    ensures Holds(tags + [TagUsers(e.tag, [e.userId])], entries + [e], hidden)
  {
    var r := tags + [TagUsers(e.tag, [e.userId])];
    assert forall x :: x in entries ==> x.tag != e.tag;
    FirstPoster(entries, e);
    forall k | 0 <= k < |r|
      ensures r[k].name !in hidden && r[k].users == UsersOf(entries + [e], r[k].name) && |r[k].users| > 0
    {
      OpenedAt(tags, entries, e, hidden, k);
    }
  }

  /** After opening `e`'s tag, the tag at `k` holds its posters of the longer stream. */
  lemma OpenedAt(tags: seq<TagUsers>, entries: seq<TrendEntry>, e: TrendEntry, hidden: seq<string>, k: int)
    requires Holds(tags, entries, hidden) && e.tag !in hidden && UsersOf(entries + [e], e.tag) == [e.userId]
    requires forall j :: 0 <= j < |tags| ==> tags[j].name != e.tag
    requires 0 <= k <= |tags|
    ensures var r := tags + [TagUsers(e.tag, [e.userId])];
      r[k].name !in hidden && r[k].users == UsersOf(entries + [e], r[k].name) && |r[k].users| > 0
  {
    var r := tags + [TagUsers(e.tag, [e.userId])];
    if k < |tags| {
      assert r[k] == tags[k];
      UsersOfSnoc(entries, e, tags[k].name);
    } else {
      assert r[k] == TagUsers(e.tag, [e.userId]);
    }
  }

  /** The first entry of a tag makes its poster the tag's only poster. */
  lemma FirstPoster(entries: seq<TrendEntry>, e: TrendEntry)
    requires forall x :: x in entries ==> x.tag != e.tag
    ensures UsersOf(entries + [e], e.tag) == [e.userId]
  {
    NoPosters(entries, e.tag);
    UsersOfSnoc(entries, e, e.tag);
  }

  lemma CollectHolds(tags: seq<TagUsers>, entries: seq<TrendEntry>, e: TrendEntry, hidden: seq<string>)
    requires Named(tags) && Holds(tags, entries, hidden) && Covers(tags, entries, hidden)
    ensures Holds(Collect(tags, e, hidden), entries + [e], hidden)
  {
    if e.tag in hidden {
      CollectHoldsUnchanged(tags, entries, e, hidden);
    } else {
      var index := FindTag(tags, e.tag);
      if index >= 0 && e.userId !in tags[index].users {
        CollectHoldsPush(tags, entries, e, hidden, index);
      } else if index < 0 {
        CollectHoldsOpen(tags, entries, e, hidden);
      } else {
        CollectHoldsUnchanged(tags, entries, e, hidden);
      }
    }
  }

  lemma CollectCovers(tags: seq<TagUsers>, entries: seq<TrendEntry>, e: TrendEntry, hidden: seq<string>)
    requires Covers(tags, entries, hidden)
    ensures Covers(Collect(tags, e, hidden), entries + [e], hidden)
  {
    var r := Collect(tags, e, hidden);
    assert forall k :: 0 <= k < |tags| ==> r[k].name == tags[k].name;
    if e.tag !in hidden {
      var index := FindTag(tags, e.tag);
      var k := if index >= 0 then index else |tags|;
      assert r[k].name == e.tag;
    }
  }

  /** After the loop, the tags are distinct and unhidden, hold their distinct posters, and cover the unhidden stream. */
  lemma {:induction false} AggregateSound(entries: seq<TrendEntry>, hidden: seq<string>)
    ensures Aggregated(Aggregate(entries, hidden), entries, hidden)
    decreases |entries|
  {
    if |entries| > 0 {
      var init := entries[..|entries| - 1];
      var e := entries[|entries| - 1];
      var tags := Aggregate(init, hidden);
      AggregateSound(init, hidden);
      CollectNamed(tags, e, hidden);
      CollectHolds(tags, init, e, hidden);
      CollectCovers(tags, init, e, hidden);
      assert init + [e] == entries;
    } else {
      assert Aggregate(entries, hidden) == [];
    }
  }

  // ---------------------------------------------------------------------
  // The answer

  /** `tags.sort((a, b) => b.users.length - a.users.length)` */
  function Ranked(entries: seq<TrendEntry>, hidden: seq<string>): seq<TagUsers> {
    SortDesc(Aggregate(entries, hidden), UserCount)
  }

  /**
   * The stats of the store branch: the names of the first five sorted
   * tags (`hots`), entry `i` counting `tags[i]`, which the in-place sort
   * made the tag of `hots[i]`.
   */
  function Stats(ranked: seq<TagUsers>): (r: seq<TrendStat>)
    ensures |r| == if |ranked| < MaxTrends then |ranked| else MaxTrends
    ensures forall i :: 0 <= i < |r| ==>
      r[i].tag == ranked[i].name && r[i].chart == [] && r[i].usersCount == |ranked[i].users|
  {
    var hots := JsSlice(MapSeq(ranked, TagName), 0, MaxTrends);
    seq(|hots|, i requires 0 <= i < |hots| => TrendStat(hots[i], [], |ranked[i].users|))
  }

  /** What the store branch answers for the stream `entries` and the normalised hidden tags. */
  function TrendAnswer(entries: seq<TrendEntry>, hidden: seq<string>): seq<TrendStat> {
    if |entries| == 0 then [] else Stats(Ranked(entries, hidden))
  }

  /** The sorted tags: collected correctly, covering the stream, by descending poster count. */
  ghost predicate RankedOk(ranked: seq<TagUsers>, entries: seq<TrendEntry>, hidden: seq<string>) {
    Holds(ranked, entries, hidden) && Covers(ranked, entries, hidden) && SortedDesc(ranked, UserCount)
  }

  /**
   * At most five tags, none hidden, each posted in the stream, counted by
   * its distinct posters, with no chart, in descending order of that
   * count; and an unhidden tag of the stream that was left out has no
   * more posters than any returned one.
   */
  ghost predicate Trending(r: seq<TrendStat>, entries: seq<TrendEntry>, hidden: seq<string>) {
    |r| <= MaxTrends
    && (forall i :: 0 <= i < |r| ==>
          r[i].tag !in hidden && r[i].chart == [] && r[i].usersCount == |UsersOf(entries, r[i].tag)|
          && exists e :: e in entries && e.tag == r[i].tag)
    && (forall i, j :: 0 <= i < j < |r| ==> r[i].usersCount >= r[j].usersCount)
    && (forall e, i :: e in entries && e.tag !in hidden && (forall j :: 0 <= j < |r| ==> r[j].tag != e.tag) && 0 <= i < |r| ==>
          r[i].usersCount >= |UsersOf(entries, e.tag)|)
  }

  /** Sorting keeps every tag with its posters. */
  lemma RankedHolds(tags: seq<TagUsers>, entries: seq<TrendEntry>, hidden: seq<string>)
    requires Holds(tags, entries, hidden)
    ensures Holds(SortDesc(tags, UserCount), entries, hidden)
  {
    var ranked := SortDesc(tags, UserCount);
    forall k | 0 <= k < |ranked|
      ensures ranked[k].name !in hidden && ranked[k].users == UsersOf(entries, ranked[k].name) && |ranked[k].users| > 0
    {
      assert ranked[k] in multiset(tags);
      var j :| 0 <= j < |tags| && tags[j] == ranked[k];
    }
  }

  /** Sorting drops no tag. */
  lemma RankedCovers(tags: seq<TagUsers>, entries: seq<TrendEntry>, hidden: seq<string>)
    requires Covers(tags, entries, hidden)
    ensures Covers(SortDesc(tags, UserCount), entries, hidden)
  {
    var ranked := SortDesc(tags, UserCount);
    forall e | e in entries && e.tag !in hidden
      ensures exists k :: 0 <= k < |ranked| && ranked[k].name == e.tag
    {
      var j :| 0 <= j < |tags| && tags[j].name == e.tag;
      assert tags[j] in multiset(ranked);
      var k :| 0 <= k < |ranked| && ranked[k] == tags[j];
    }
  }

  /** Each returned tag is an unhidden tag of the stream, counted by its distinct posters. */
  lemma StatsCounted(ranked: seq<TagUsers>, entries: seq<TrendEntry>, hidden: seq<string>)
    requires Holds(ranked, entries, hidden)
    ensures var r := Stats(ranked);
      forall i :: 0 <= i < |r| ==>
        r[i].tag !in hidden && r[i].chart == [] && r[i].usersCount == |UsersOf(entries, r[i].tag)|
        && exists e :: e in entries && e.tag == r[i].tag
  {
    var r := Stats(ranked);
    forall i | 0 <= i < |r|
      ensures exists e :: e in entries && e.tag == r[i].tag
    {
      var u := ranked[i].users[0];
      UsersOfMembers(entries, ranked[i].name);
      assert TrendEntry(r[i].tag, u) in entries;
    }
  }

  /** No unhidden tag of the stream that was left out has more posters than a returned one. */
  lemma StatsTop(ranked: seq<TagUsers>, entries: seq<TrendEntry>, hidden: seq<string>)
    requires RankedOk(ranked, entries, hidden)
    ensures var r := Stats(ranked);
      forall e, i :: e in entries && e.tag !in hidden && (forall j :: 0 <= j < |r| ==> r[j].tag != e.tag) && 0 <= i < |r| ==>
        r[i].usersCount >= |UsersOf(entries, e.tag)|
  {
    var r := Stats(ranked);
    forall e, i | e in entries && e.tag !in hidden && (forall j :: 0 <= j < |r| ==> r[j].tag != e.tag) && 0 <= i < |r|
      ensures r[i].usersCount >= |UsersOf(entries, e.tag)|
    {
      StatsTopAt(ranked, entries, hidden, e, i);
    }
  }

  /** A tag of the stream left out of the answer has no more posters than the `i`th returned one. */
  lemma StatsTopAt(ranked: seq<TagUsers>, entries: seq<TrendEntry>, hidden: seq<string>, e: TrendEntry, i: int)
    requires Holds(ranked, entries, hidden) && Covers(ranked, entries, hidden) && SortedDesc(ranked, UserCount)
    requires e in entries && e.tag !in hidden && 0 <= i < |Stats(ranked)|
    requires forall j :: 0 <= j < |Stats(ranked)| ==> Stats(ranked)[j].tag != e.tag
    ensures Stats(ranked)[i].usersCount >= |UsersOf(entries, e.tag)|
  {
    var k :| 0 <= k < |ranked| && ranked[k].name == e.tag;
    StatsTagAt(ranked, k);
    LeftOutFewer(ranked, entries, hidden, i, k);
  }

  /** A position of the answer names the tag ranked there. */
  lemma StatsTagAt(ranked: seq<TagUsers>, k: int)
    requires 0 <= k < |ranked|
    ensures k < |Stats(ranked)| ==> Stats(ranked)[k].tag == ranked[k].name
  {
  }

  /** A tag ranked after the `i`th has no more posters than it. */
  lemma LeftOutFewer(ranked: seq<TagUsers>, entries: seq<TrendEntry>, hidden: seq<string>, i: int, k: int)
    requires Holds(ranked, entries, hidden) && SortedDesc(ranked, UserCount) && 0 <= i <= k < |ranked|
    ensures |ranked[i].users| >= |UsersOf(entries, ranked[k].name)|
  {
    assert UserCount(ranked[i]) >= UserCount(ranked[k]) || i == k;
  }

  lemma StatsSound(ranked: seq<TagUsers>, entries: seq<TrendEntry>, hidden: seq<string>)
    requires RankedOk(ranked, entries, hidden)
    ensures Trending(Stats(ranked), entries, hidden)
  {
    StatsCounted(ranked, entries, hidden);
    StatsTop(ranked, entries, hidden);
    StatsOrdered(ranked);
  }

  /** The returned counts descend. */
  lemma StatsOrdered(ranked: seq<TagUsers>)
    requires SortedDesc(ranked, UserCount)
    ensures var r := Stats(ranked);
      forall i, j :: 0 <= i < j < |r| ==> r[i].usersCount >= r[j].usersCount
  {
    var r := Stats(ranked);
    assert forall i, j :: 0 <= i < j < |r| ==> UserCount(ranked[i]) >= UserCount(ranked[j]);
  }

  /** An empty stream gives nothing; any other gives the trending tags. */
  lemma TrendSound(entries: seq<TrendEntry>, hidden: seq<string>)
    ensures |entries| == 0 ==> TrendAnswer(entries, hidden) == []
    ensures Trending(TrendAnswer(entries, hidden), entries, hidden)
  {
    if |entries| > 0 {
      AggregateSound(entries, hidden);
      RankedHolds(Aggregate(entries, hidden), entries, hidden);
      RankedCovers(Aggregate(entries, hidden), entries, hidden);
      StatsSound(Ranked(entries, hidden), entries, hidden);
    }
  }

  /** The store branch of the endpoint; `normalize` is `normalizeForSearch`. */
  method TrendStore(entries: seq<TrendEntry>, hiddenTags: seq<string>, normalize: string -> string) returns (stats: seq<TrendStat>)
    ensures stats == TrendAnswer(entries, MapSeq(hiddenTags, normalize))
  {
    var hidden := MapSeq(hiddenTags, normalize);
    if |entries| == 0 {
      return [];
    }
    var tags: seq<TagUsers> := [];
    for i := 0 to |entries|
      invariant tags == Aggregate(entries[..i], hidden)
    {
      assert entries[..i + 1][..i] == entries[..i];
      var name := entries[i].tag;
      var userId := entries[i].userId;
      if name !in hidden {
        var index := FindTag(tags, name);
        if index >= 0 && userId !in tags[index].users {
          tags := tags[index := TagUsers(name, tags[index].users + [userId])];
        } else if index < 0 {
          tags := tags + [TagUsers(name, [userId])];
        }
      }
    }
    assert entries[..|entries|] == entries;
    tags := SortDesc(tags, UserCount);
    var hots := JsSlice(MapSeq(tags, TagName), 0, MaxTrends);
    stats := seq(|hots|, i requires 0 <= i < |hots| => TrendStat(hots[i], [], |tags[i].users|));
  }
}

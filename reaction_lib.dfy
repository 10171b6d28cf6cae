/**
 * Reaction names (misc/reaction-lib.ts): decoding a stored reaction key
 * into its canonical form, folding a note's reaction counts by that
 * form, and the first steps of turning a requested reaction into the
 * one that is stored.
 */
module ReactionLib {
  import opened Common

  // ---------------------------------------------------------------------
  // The custom-emoji syntax

  /** The class `[\w+-]` of emoji names. */
  predicate IsNameChar(c: char) { IsWordChar(c) || c == '+' || c == '-' }

  /** The class `[\w.-]` of host names. */
  predicate IsHostChar(c: char) { IsWordChar(c) || c == '.' || c == '-' }

  /** `[\w+-]+` */
  predicate NameRun(s: string) { |s| > 0 && forall i :: 0 <= i < |s| ==> IsNameChar(s[i]) }

  /** `[\w.-]+` */
  predicate HostRun(s: string) { |s| > 0 && forall i :: 0 <= i < |s| ==> IsHostChar(s[i]) }

  /** `s.indexOf(c)` */
  function IndexOf(s: string, c: char): (r: int)
    ensures -1 <= r < |s|
    ensures r >= 0 ==> s[r] == c && c !in s[..r]
    ensures r < 0 ==> c !in s
  {
    if |s| == 0 then -1
    else if s[0] == c then 0
    else
      var r := IndexOf(s[1..], c);
      assert forall k :: 0 <= k < |s| - 1 ==> s[1..][k] == s[k + 1];
      if r < 0 then -1 else r + 1
  }

  /** A custom emoji reference: a name and, for a remote emoji, its host. */
  datatype Custom = Custom(name: string, host: Option<string>)

  predicate WellFormed(c: Custom) {
    NameRun(c.name) && (c.host.Some? ==> HostRun(c.host.value))
  }

  /** `:name:` or `:name@host:` */
  function CustomText(c: Custom): string {
    ":" + c.name + (if c.host.Some? then "@" + c.host.value else "") + ":"
  }

  /** The match of `/^:([\w+-]+)(?:@([\w.-]+))?:$/`: its two groups. */
  function MatchCustom(s: string): Option<Custom> {
    if |s| < 2 || s[0] != ':' || s[|s| - 1] != ':' then None
    else
      var m := s[1..|s| - 1];
      var at := IndexOf(m, '@');
      if at < 0 then
        if NameRun(m) then Some(Custom(m, None)) else None
      else if NameRun(m[..at]) && HostRun(m[at + 1..]) then Some(Custom(m[..at], Some(m[at + 1..])))
      else None
  }

  /** A match is a well-formed reference spelling the whole string. */
  lemma MatchCustomSound(s: string)
    ensures MatchCustom(s).Some? ==> WellFormed(MatchCustom(s).value) && CustomText(MatchCustom(s).value) == s
  {
    if |s| >= 2 && s[0] == ':' && s[|s| - 1] == ':' {
      var m := s[1..|s| - 1];
      assert s == ":" + m + ":";
      var at := IndexOf(m, '@');
      if at >= 0 {
        assert m == m[..at] + "@" + m[at + 1..];
      }
    }
  }

  /** Every well-formed reference is matched, with its own groups. */
  lemma MatchCustomComplete(c: Custom)
    requires WellFormed(c)
    ensures MatchCustom(CustomText(c)) == Some(c)
  {
    var s := CustomText(c);
    var m := s[1..|s| - 1];
    assert '@' !in c.name by {
      assert forall i :: 0 <= i < |c.name| ==> IsNameChar(c.name[i]);
    }
    if c.host.Some? {
      assert m == c.name + "@" + c.host.value;
      var at := IndexOf(m, '@');
      assert m[|c.name|] == '@';
      assert at <= |c.name| by {
        assert m[..|c.name| + 1] == c.name + "@";
      }
      assert m[..at] == c.name[..at];
      assert at == |c.name|;
      assert m[..at] == c.name && m[at + 1..] == c.host.value;
    } else {
      assert m == c.name;
    }
  }

  /** Whether `s` is a custom emoji reference at all. */
  ghost predicate IsCustom(s: string) {
    exists c :: WellFormed(c) && CustomText(c) == s
  }

  // ---------------------------------------------------------------------
  // decodeReaction

  /** `DecodedReaction`: `name` and `host` are `None` for undefined; `host` is `Some(None)` for null. */
  datatype DecodedReaction = DecodedReaction(reaction: string, name: Option<string>, host: Option<Option<string>>)

  /** `decodeReaction`: a local emoji is spelled with the host `.`; anything else is kept as it is. */
  function DecodeReaction(str: string): DecodedReaction {
    match MatchCustom(str)
    case Some(c) => DecodedReaction(":" + c.name + "@" + OrElse(c.host, ".") + ":", Some(c.name), Some(c.host))
    case None => DecodedReaction(str, None, None)
  }

  /** `:name@host:` decodes to itself, with that name and host. */
  lemma DecodeRemote(name: string, host: string)
    requires NameRun(name) && HostRun(host)
    ensures DecodeReaction(":" + name + "@" + host + ":")
      == DecodedReaction(":" + name + "@" + host + ":", Some(name), Some(Some(host)))
  {
    MatchCustomComplete(Custom(name, Some(host)));
    assert CustomText(Custom(name, Some(host))) == ":" + name + "@" + host + ":";
  }

  /** `:name:` decodes to `:name@.:` with a null host. */
  lemma DecodeLocal(name: string)
    requires NameRun(name)
    ensures DecodeReaction(":" + name + ":") == DecodedReaction(":" + name + "@.:", Some(name), Some(None))
  {
    MatchCustomComplete(Custom(name, None));
    assert CustomText(Custom(name, None)) == ":" + name + ":";
  }

  /** Anything that is not a custom reference (a Unicode emoji, say) is returned unchanged, name and host undefined. */
  lemma DecodeOther(str: string)
    requires !IsCustom(str)
    ensures DecodeReaction(str) == DecodedReaction(str, None, None)
  {
    MatchCustomSound(str);
  }

  /** Decoding a decoded reaction gives it back. */
  lemma DecodeIdempotent(str: string)
    ensures DecodeReaction(DecodeReaction(str).reaction).reaction == DecodeReaction(str).reaction
  {
    MatchCustomSound(str);
    match MatchCustom(str)
    case Some(c) =>
      var canon := Custom(c.name, Some(OrElse(c.host, ".")));
      assert HostRun(".") by {
        assert IsHostChar(".."[0]);
      }
      MatchCustomComplete(canon);
      assert CustomText(canon) == DecodeReaction(str).reaction;
    case None =>
  }

  // ---------------------------------------------------------------------
  // convertReactions

  /** The canonical form a stored reaction key is counted under. */
  function Canonical(key: string): string { DecodeReaction(key).reaction }

  /** The result map after the loop over `reactions`, a record's entries in iteration order. */
  function Converted(reactions: seq<(string, int)>): map<string, int>
    decreases |reactions|
  {
    if |reactions| == 0 then map[]
    else
      var m := Converted(reactions[..|reactions| - 1]);
      var (key, count) := reactions[|reactions| - 1];
      if count <= 0 then m
      else
        var d := Canonical(key);
        m[d := (if d in m then m[d] else 0) + count]
  }

  /** The positive counts of the keys whose canonical form is `d`, summed. */
  function CountFor(reactions: seq<(string, int)>, d: string): (r: int)
    ensures r >= 0
    decreases |reactions|
  {
    if |reactions| == 0 then 0
    else
      var (key, count) := reactions[|reactions| - 1];
      CountFor(reactions[..|reactions| - 1], d) + (if count > 0 && Canonical(key) == d then count else 0)
  }

  /** The positive counts, summed. */
  function PositiveTotal(reactions: seq<(string, int)>): (r: int)
    ensures r >= 0
    decreases |reactions|
  {
    if |reactions| == 0 then 0
    else
      var count := reactions[|reactions| - 1].1;
      PositiveTotal(reactions[..|reactions| - 1]) + (if count > 0 then count else 0)
  }

  /** Some key with a positive count decodes to `d`. */
  predicate Reacted(reactions: seq<(string, int)>, d: string) {
    exists i :: 0 <= i < |reactions| && reactions[i].1 > 0 && Canonical(reactions[i].0) == d
  }

  lemma {:induction false} ConvertedKeys(reactions: seq<(string, int)>)
    ensures forall d :: d in Converted(reactions) <==> Reacted(reactions, d)
    decreases |reactions|
  {
    if |reactions| > 0 {
      var init := reactions[..|reactions| - 1];
      var last := reactions[|reactions| - 1];
      ConvertedKeys(init);
      forall d
        ensures Reacted(reactions, d) <==> Reacted(init, d) || (last.1 > 0 && Canonical(last.0) == d)
      {
        if Reacted(reactions, d) {
          var i :| 0 <= i < |reactions| && reactions[i].1 > 0 && Canonical(reactions[i].0) == d;
          if i < |init| {
            assert init[i] == reactions[i];
          }
        }
        if Reacted(init, d) {
          var i :| 0 <= i < |init| && init[i].1 > 0 && Canonical(init[i].0) == d;
          assert reactions[i] == init[i];
        }
      }
    }
  }

  lemma {:induction false} ConvertedValues(reactions: seq<(string, int)>)
    ensures forall d :: d in Converted(reactions) ==> Converted(reactions)[d] == CountFor(reactions, d) > 0
    ensures forall d :: d !in Converted(reactions) ==> CountFor(reactions, d) == 0
    decreases |reactions|
  {
    if |reactions| > 0 {
      ConvertedValues(reactions[..|reactions| - 1]);
    }
  }

  /**
   * A canonical form is a key of the result exactly when some key with a
   * positive count decodes to it, and then it maps to the sum of those
   * counts, which is positive; counts of zero or less are skipped.
   */
  lemma ConvertedCounts(reactions: seq<(string, int)>)
    ensures forall d :: d in Converted(reactions) <==>
      exists i :: 0 <= i < |reactions| && reactions[i].1 > 0 && Canonical(reactions[i].0) == d
    ensures forall d :: d in Converted(reactions) ==> Converted(reactions)[d] == CountFor(reactions, d) > 0
    ensures forall d :: d !in Converted(reactions) ==> CountFor(reactions, d) == 0
  {
    ConvertedKeys(reactions);
    ConvertedValues(reactions);
  }

  /** A record's worth of sums: the values of a map, added up. */
  ghost function Total(m: map<string, int>): int
    decreases |m|
  {
    if |m| == 0 then 0
    else
      var k :| k in m;
      m[k] + Total(m - {k})
  }

  /** The total does not depend on which key is taken out first. */
  lemma {:induction false} TotalRemove(m: map<string, int>, k: string)
    requires k in m
    ensures Total(m) == m[k] + Total(m - {k})
    decreases |m|, 1
  {
    var j :| j in m && Total(m) == m[j] + Total(m - {j});
    if j != k {
      TotalSwap(m, j, k);
    }
  }

  /** Taking out `j` first or `k` first gives the same total. */
  lemma {:induction false} TotalSwap(m: map<string, int>, j: string, k: string)
    requires j in m && k in m && j != k
    ensures m[j] + Total(m - {j}) == m[k] + Total(m - {k})
    decreases |m|, 0
  {
    var mj, mk := m - {j}, m - {k};
    assert mj.Keys == m.Keys - {j} && mk.Keys == m.Keys - {k};
    TotalRemove(mj, k);
    TotalRemove(mk, j);
    assert mj - {k} == mk - {j};
  }

  /** Setting one key changes the total by the difference. */
  lemma TotalUpdate(m: map<string, int>, k: string, v: int)
    ensures Total(m[k := v]) == Total(m) - (if k in m then m[k] else 0) + v
  {
    TotalRemove(m[k := v], k);
    assert m[k := v] - {k} == m - {k};
    if k in m {
      TotalRemove(m, k);
    } else {
      assert m - {k} == m;
    }
  }

  /** `convertReactions` loses and invents no reaction: its counts add up to the positive input counts. */
  lemma {:induction false} ConvertedTotal(reactions: seq<(string, int)>)
    ensures Total(Converted(reactions)) == PositiveTotal(reactions)
    decreases |reactions|
  {
    if |reactions| == 0 {
      assert Converted(reactions) == map[];
    } else {
      var init := reactions[..|reactions| - 1];
      ConvertedTotal(init);
      var (key, count) := reactions[|reactions| - 1];
      if count > 0 {
        var m := Converted(init);
        var d := Canonical(key);
        TotalUpdate(m, d, (if d in m then m[d] else 0) + count);
      }
    }
  }

  /** `convertReactions`: `reactions` lists the record's entries in iteration order. */
  method ConvertReactions(reactions: seq<(string, int)>) returns (result: map<string, int>)
    ensures result == Converted(reactions)
  {
    result := map[];
    for i := 0 to |reactions|
      invariant result == Converted(reactions[..i])
    {
      assert reactions[..i + 1][..i] == reactions[..i];
      var (reaction, count) := reactions[i];
      if count <= 0 {
        continue;
      }
      var decoded := DecodeReaction(reaction).reaction;
      result := result[decoded := (if decoded in result then result[decoded] else 0) + count];
    }
    assert reactions[..|reactions|] == reactions;
  }

  // ---------------------------------------------------------------------
  // toDbReaction

  /** U+2665 U+FE0F, the suit heart with the emoji presentation selector. */
  const SuitHeart := "\U{2665}\U{FE0F}"

  /** U+2764 U+FE0F, the red heart. */
  const RedHeart := "\U{2764}\U{FE0F}"

  /** What `toDbReaction` resolves to: the stored name and the custom emoji row, if any. */
  datatype DbReaction<E> = DbReaction(name: string, emoji: Option<E>)

  /** The match of `/^:([\w+-]+)(?:@\.)?:$/`: the name of a local custom emoji. */
  function MatchLocal(s: string): Option<string> {
    if |s| < 2 || s[0] != ':' || s[|s| - 1] != ':' then None
    else
      var m := s[1..|s| - 1];
      if NameRun(m) then Some(m)
      else if |m| >= 2 && m[|m| - 2..] == "@." && NameRun(m[..|m| - 2]) then Some(m[..|m| - 2])
      else None
  }

  /** The local pattern matches exactly `:name:` and `:name@.:`, capturing the name. */
  lemma MatchLocalExact(s: string, name: string)
    ensures MatchLocal(s) == Some(name) <==> NameRun(name) && (s == ":" + name + ":" || s == ":" + name + "@.:")
  {
    if s == ":" + name + "@.:" && NameRun(name) {
      var m := s[1..|s| - 1];
      assert m == name + "@.";
      assert m[|m| - 1] == '.' && !IsNameChar('.');
      assert m[..|m| - 2] == name;
    } else if s == ":" + name + ":" {
      assert s[1..|s| - 1] == name;
    }
    if MatchLocal(s) == Some(name) {
      var m := s[1..|s| - 1];
      assert s == ":" + m + ":";
      if !NameRun(m) {
        assert m == m[..|m| - 2] + "@.";
      }
    }
  }

  /**
   * `toDbReaction`: `fallback` is what `getFallbackReaction` gives,
   * `emoji` the first match of the Unicode emoji pattern, `puny` the
   * punycode conversion of a host and `findEmoji` the cached emoji lookup
   * by name and host (none for local).
   */
  function ToDbReaction<E>(reaction: Option<string>, reacterHost: Option<string>, fallback: DbReaction<E>,
                           emoji: string -> Option<string>, puny: string -> string,
                           findEmoji: (string, Option<string>) -> Option<E>): DbReaction<E>
  {
    if !Truthy(reaction) then fallback
    else
      var s := reaction.value;
      var host := if reacterHost.Some? then Some(puny(reacterHost.value)) else None;
      if s == SuitHeart then DbReaction(RedHeart, None)
      else if emoji(s).Some? then DbReaction(emoji(s).value, None)
      else
        match MatchLocal(s)
        case Some(name) =>
          var found := findEmoji(name, if Truthy(host) then host else None);
          if found.Some? then
            DbReaction(if Truthy(host) then ":" + name + "@" + host.value + ":" else ":" + name + ":", found)
          else fallback
        case None => fallback
  }

  /** The suit heart is stored as the red heart, without an emoji row, whatever the emoji pattern says. */
  lemma ToDbHeart<E>(reacterHost: Option<string>, fallback: DbReaction<E>, emoji: string -> Option<string>,
                     puny: string -> string, findEmoji: (string, Option<string>) -> Option<E>)
    ensures ToDbReaction(Some(SuitHeart), reacterHost, fallback, emoji, puny, findEmoji) == DbReaction(RedHeart, None)
  {
  }

  /**
   * A missing or empty reaction falls back; a local custom reference the
   * emoji pattern does not claim is stored under the reacter's host
   * (none for a local reacter) when that emoji exists, and falls back
   * otherwise.
   */
  lemma ToDbCustom<E>(name: string, s: string, reacterHost: Option<string>, fallback: DbReaction<E>,
                      emoji: string -> Option<string>, puny: string -> string,
                      findEmoji: (string, Option<string>) -> Option<E>)
    requires NameRun(name) && (s == ":" + name + ":" || s == ":" + name + "@.:") && emoji(s).None?
    ensures ToDbReaction(None, reacterHost, fallback, emoji, puny, findEmoji) == fallback
    ensures ToDbReaction(Some(""), reacterHost, fallback, emoji, puny, findEmoji) == fallback
    ensures var host := if reacterHost.Some? && puny(reacterHost.value) != "" then Some(puny(reacterHost.value)) else None;
      var r := ToDbReaction(Some(s), reacterHost, fallback, emoji, puny, findEmoji);
      match findEmoji(name, host)
      case None => r == fallback
      case Some(e) => r == DbReaction(if host.Some? then ":" + name + "@" + host.value + ":" else ":" + name + ":", Some(e))
  {
    MatchLocalExact(s, name);
    assert s != SuitHeart by {
      assert s[0] == ':';
    }
  }

  /**
   * Any other reaction the Unicode emoji pattern matches is stored as the
   * pattern's first match, without an emoji row.
   */
  lemma ToDbUnicode<E>(s: string, u: string, reacterHost: Option<string>, fallback: DbReaction<E>,
                       emoji: string -> Option<string>, puny: string -> string,
                       findEmoji: (string, Option<string>) -> Option<E>)
    requires s != "" && s != SuitHeart && emoji(s) == Some(u)
    ensures ToDbReaction(Some(s), reacterHost, fallback, emoji, puny, findEmoji) == DbReaction(u, None)
  {
  }

  /**
   * A reaction that is neither the suit heart, nor claimed by the emoji
   * pattern, nor of the form `:name:` or `:name@.:` (a remote reference
   * such as `:name@host:` included) falls back, whatever the emoji table
   * holds.
   */
  lemma ToDbUnmatched<E>(s: string, reacterHost: Option<string>, fallback: DbReaction<E>,
                         emoji: string -> Option<string>, puny: string -> string,
                         findEmoji: (string, Option<string>) -> Option<E>)
    requires s != SuitHeart && emoji(s).None?
    requires forall name :: NameRun(name) ==> s != ":" + name + ":" && s != ":" + name + "@.:"
    ensures ToDbReaction(Some(s), reacterHost, fallback, emoji, puny, findEmoji) == fallback
  {
    if MatchLocal(s).Some? {
      MatchLocalExact(s, MatchLocal(s).value);
      assert false;
    }
  }
}

/**
 * The client's URI splitter (client/src/scripts/parse-uri.ts): one match
 * of `/^(\w+):(\/\/)?([^/?#]*)(\/([^?#]*))?(\?([^#]*))?(#(.*))?$/`
 * against the whole string, destructured into the five components of
 * the generic syntax of section 3 of RFC 3986.
 *
 * The match is written out as the backtracking matcher finds it: every
 * quantifier takes as much as it can, because the rest of the pattern can
 * always match after that choice, except that `.` does not match a line
 * terminator, so a fragment holding one leaves no match at all.
 */
module UriSplit {
  import opened Common

  const InvalidFormat := "Invalid URL format"

  /** The components; `None` stands for null. */
  datatype UriParts = UriParts(scheme: string, authority: Option<string>, path: Option<string>,
                               query: Option<string>, fragment: Option<string>)

  predicate NotWord(c: char) { !IsWordChar(c) }
  predicate AuthorityStop(c: char) { c == '/' || c == '?' || c == '#' }
  predicate PathStop(c: char) { c == '?' || c == '#' }
  predicate QueryStop(c: char) { c == '#' }

  /** The characters `.` does not match. */
  predicate IsLineTerminator(c: char) { c == '\n' || c == '\r' || c == '\U{2028}' || c == '\U{2029}' }

  /** No character of `s` is a `stop` character. */
  predicate NoneOf(s: string, stop: char -> bool) {
    |s| == 0 || (!stop(s[0]) && NoneOf(s[1..], stop))
  }

  lemma {:induction false} NoneOfAppend(a: string, b: string, stop: char -> bool)
    ensures NoneOf(a + b, stop) <==> NoneOf(a, stop) && NoneOf(b, stop)
    decreases |a|
  {
    if |a| > 0 {
      assert (a + b)[1..] == a[1..] + b;
      NoneOfAppend(a[1..], b, stop);
    } else {
      assert a + b == b;
    }
  }

  /** A run free of `/?#` is free of `?#`. */
  lemma {:induction false} NoneOfPathStop(s: string)
    requires NoneOf(s, AuthorityStop)
    ensures NoneOf(s, PathStop)
    decreases |s|
  {
    if |s| > 0 {
      NoneOfPathStop(s[1..]);
    }
  }

  lemma AppendAssoc(a: string, b: string, c: string)
    ensures a + b + c == a + (b + c)
  {
  }

  /** `s` cut before its first `stop` character: what a greedy `[^stop]*` takes, and the rest. */
  function Break(s: string, stop: char -> bool): (r: (string, string))
    ensures r.0 + r.1 == s
    ensures NoneOf(r.0, stop)
    ensures |r.1| > 0 ==> stop(r.1[0])
    decreases |s|
  {
    if |s| == 0 || stop(s[0]) then ("", s)
    else
      var (h, t) := Break(s[1..], stop);
      assert ([s[0]] + h)[1..] == h;
      assert [s[0]] + h + t == s;
      ([s[0]] + h, t)
  }

  /** The cut is the only one: a run without `stop` followed by nothing or a `stop` character is cut there. */
  lemma {:induction false} BreakOf(s: string, t: string, stop: char -> bool)
    requires NoneOf(s, stop) && (|t| == 0 || stop(t[0]))
    ensures Break(s + t, stop) == (s, t)
    decreases |s|
  {
    if |s| > 0 {
      assert (s + t)[1..] == s[1..] + t;
      BreakOf(s[1..], t, stop);
      assert [s[0]] + s[1..] == s;
    } else {
      assert s + t == t;
    }
  }

  // ---------------------------------------------------------------------
  // After the authority

  /** An optional group `(c[^stop]*)?` at the start of `s`, and what follows it. */
  function Lead(s: string, c: char, stop: char -> bool): (r: (Option<string>, string))
    requires !stop(c)
    ensures OrElse(r.0, "") + r.1 == s
    ensures r.0.Some? ==> |r.0.value| > 0 && r.0.value[0] == c && NoneOf(r.0.value, stop) && (|r.1| > 0 ==> stop(r.1[0]))
    ensures r.0.None? ==> r.1 == s && (|s| > 0 ==> s[0] != c)
  {
    if |s| > 0 && s[0] == c then
      var b := Break(s, stop);
      (Some(b.0), b.1)
    else (None, s)
  }

  /** The group takes back exactly a run it was given. */
  lemma LeadComplete(g: Option<string>, t: string, c: char, stop: char -> bool)
    requires !stop(c)
    requires g.Some? ==> |g.value| > 0 && g.value[0] == c && NoneOf(g.value, stop) && (|t| > 0 ==> stop(t[0]))
    requires g.None? ==> |t| > 0 ==> t[0] != c
    ensures Lead(OrElse(g, "") + t, c, stop) == (g, t)
  {
    if g.Some? {
      BreakOf(g.value, t, stop);
    } else {
      assert OrElse(g, "") + t == t;
    }
  }

  /** Groups 4 and 6, and what is left for group 8. */
  datatype Tail = Tail(path: Option<string>, query: Option<string>, rest: string)

  /** `(\/([^?#]*))?(\?([^#]*))?` from where `[^/?#]*` stopped. */
  function SplitTail(r1: string): Tail {
    var (path, r2) := Lead(r1, '/', PathStop);
    var (query, r3) := Lead(r2, '?', QueryStop);
    Tail(path, query, r3)
  }

  predicate PathOk(p: Option<string>) {
    p.Some? ==> |p.value| > 0 && p.value[0] == '/' && NoneOf(p.value, PathStop)
  }

  predicate QueryOk(q: Option<string>) {
    q.Some? ==> |q.value| > 0 && q.value[0] == '?' && NoneOf(q.value, QueryStop)
  }

  predicate FragmentOk(f: Option<string>) {
    f.Some? ==> |f.value| > 0 && f.value[0] == '#' && NoneOf(f.value, IsLineTerminator)
  }

  function TailText(path: Option<string>, query: Option<string>, rest: string): string {
    OrElse(path, "") + (OrElse(query, "") + rest)
  }

  /** The tail splits into a path and a query of the right shapes and a rest that is empty or starts a fragment. */
  lemma SplitTailSound(r1: string)
    requires |r1| == 0 || AuthorityStop(r1[0])
    ensures var t := SplitTail(r1);
      PathOk(t.path) && QueryOk(t.query) && (|t.rest| > 0 ==> t.rest[0] == '#')
      && r1 == TailText(t.path, t.query, t.rest)
  {
    var (path, r2) := Lead(r1, '/', PathStop);
    assert |r2| > 0 ==> PathStop(r2[0]);
    var (query, r3) := Lead(r2, '?', QueryStop);
    assert r1 == OrElse(path, "") + (OrElse(query, "") + r3);
  }

  /** A path, a query and a rest of those shapes are split back apart. */
  lemma SplitTailComplete(path: Option<string>, query: Option<string>, rest: string)
    requires PathOk(path) && QueryOk(query) && (|rest| > 0 ==> rest[0] == '#')
    ensures SplitTail(TailText(path, query, rest)) == Tail(path, query, rest)
  {
    var qr := OrElse(query, "") + rest;
    assert TailText(path, query, rest) == OrElse(path, "") + qr;
    LeadComplete(path, qr, '/', PathStop);
    LeadComplete(query, rest, '?', QueryStop);
  }

  // ---------------------------------------------------------------------
  // parseUri

  /**
   * Groups 3 to 8 over `body`, the text after `scheme:` and after the
   * `//` when `withAuthority`; the path without an authority is the
   * would-be authority text followed by group 4.
   */
  function ParseBody(scheme: string, withAuthority: bool, body: string): Result<UriParts> {
    var (authority, r1) := Break(body, AuthorityStop);
    var t := SplitTail(r1);
    if !NoneOf(t.rest, IsLineTerminator) then Err(InvalidFormat)
    else
      Ok(UriParts(scheme,
                  if withAuthority then Some(authority) else None,
                  if withAuthority then t.path else Some(authority + OrElse(t.path, "")),
                  t.query,
                  if |t.rest| > 0 then Some(t.rest) else None))
  }

  /** `parseUri`; the error is the thrown `Error`. */
  function ParseUri(uri: string): Result<UriParts> {
    var (scheme, after) := Break(uri, NotWord);
    if |scheme| == 0 || |after| == 0 || after[0] != ':' then Err(InvalidFormat)
    else
      var rest := after[1..];
      if StartsWith(rest, "//") then ParseBody(scheme, true, rest[2..]) else ParseBody(scheme, false, rest)
  }

  /**
   * The shapes the pattern allows: a scheme of word characters; with an
   * authority free of `/?#`, a path that is null or starts with `/`;
   * without one, a path that is never null and does not start with `//`;
   * a path without `?#`, a query starting with `?` without `#`, and a
   * fragment starting with `#` without line terminators.
   */
  predicate WellShaped(u: UriParts) {
    |u.scheme| > 0 && NoneOf(u.scheme, NotWord)
    && (u.authority.Some? ==> NoneOf(u.authority.value, AuthorityStop) && PathOk(u.path))
    && (u.authority.None? ==> u.path.Some? && NoneOf(u.path.value, PathStop) && !StartsWith(u.path.value, "//"))
    && QueryOk(u.query) && FragmentOk(u.fragment)
  }

  /** What follows `scheme:` and the `//` of an authority. */
  function BodyText(u: UriParts): string {
    (if u.authority.Some? then u.authority.value else "") + TailText(u.path, u.query, OrElse(u.fragment, ""))
  }

  /** The components written back together. */
  function Compose(u: UriParts): string {
    u.scheme + (":" + ((if u.authority.Some? then "//" else "") + BodyText(u)))
  }

  /** Without an authority, the would-be authority text and the path start with `//` only where the body did. */
  lemma NoDoubleSlash(authority: string, path: Option<string>, query: Option<string>, rest: string)
    requires NoneOf(authority, AuthorityStop) && PathOk(path)
    requires !StartsWith(authority + TailText(path, query, rest), "//")
    ensures var p := authority + OrElse(path, "");
      NoneOf(p, PathStop) && !StartsWith(p, "//")
  {
    var p := authority + OrElse(path, "");
    var b := authority + TailText(path, query, rest);
    NoneOfPathStop(authority);
    NoneOfAppend(authority, OrElse(path, ""), PathStop);
    assert b == p + (OrElse(query, "") + rest);
    if |p| >= 2 {
      assert b[..2] == p[..2];
    }
  }

  /** What `ParseBody` returns is well shaped, has an authority exactly when asked to, and spells the body back. */
  lemma ParseBodySound(scheme: string, withAuthority: bool, body: string)
    requires |scheme| > 0 && NoneOf(scheme, NotWord)
    requires !withAuthority ==> !StartsWith(body, "//")
    ensures ParseBody(scheme, withAuthority, body).Err? ==> ParseBody(scheme, withAuthority, body).msg == InvalidFormat
    ensures ParseBody(scheme, withAuthority, body).Ok? ==>
      var u := ParseBody(scheme, withAuthority, body).value;
      WellShaped(u) && u.scheme == scheme && u.authority.Some? == withAuthority && BodyText(u) == body
  {
    var (authority, r1) := Break(body, AuthorityStop);
    var t := SplitTail(r1);
    SplitTailSound(r1);
    var tail := TailText(t.path, t.query, t.rest);
    assert body == authority + tail;
    if NoneOf(t.rest, IsLineTerminator) {
      var fragment := if |t.rest| > 0 then Some(t.rest) else None;
      assert OrElse(fragment, "") == t.rest;
      if withAuthority {
        var u := UriParts(scheme, Some(authority), t.path, t.query, fragment);
        assert ParseBody(scheme, withAuthority, body) == Ok(u);
        assert BodyText(u) == body;
      } else {
        var path := authority + OrElse(t.path, "");
        var u := UriParts(scheme, None, Some(path), t.query, fragment);
        assert ParseBody(scheme, withAuthority, body) == Ok(u);
        NoDoubleSlash(authority, t.path, t.query, t.rest);
        AppendAssoc(authority, OrElse(t.path, ""), OrElse(t.query, "") + t.rest);
        assert BodyText(u) == body;
      }
    }
  }

  /** The text after `scheme:` is parsed with an authority exactly when it starts with `//`, and spelled back. */
  lemma ParseAfterColon(scheme: string, rest: string)
    requires |scheme| > 0 && NoneOf(scheme, NotWord)
    ensures var r := if StartsWith(rest, "//") then ParseBody(scheme, true, rest[2..]) else ParseBody(scheme, false, rest);
      (r.Err? ==> r.msg == InvalidFormat)
      && (r.Ok? ==> WellShaped(r.value) && r.value.scheme == scheme && Compose(r.value) == scheme + (":" + rest)
                    && (r.value.authority.Some? <==> StartsWith(rest, "//")))
  {
    if StartsWith(rest, "//") {
      AfterSlashes(scheme, rest);
    } else {
      AfterNoSlashes(scheme, rest);
    }
  }

  /** Behind `//`, the body is parsed with an authority. */
  lemma AfterSlashes(scheme: string, rest: string)
    requires |scheme| > 0 && NoneOf(scheme, NotWord) && StartsWith(rest, "//")
    ensures var r := ParseBody(scheme, true, rest[2..]);
      (r.Err? ==> r.msg == InvalidFormat)
      && (r.Ok? ==> WellShaped(r.value) && r.value.scheme == scheme && Compose(r.value) == scheme + (":" + rest) && r.value.authority.Some?)
  {
    ParseBodySound(scheme, true, rest[2..]);
    assert rest == "//" + rest[2..];
  }

  /** Without `//`, the body is parsed without an authority. */
  lemma AfterNoSlashes(scheme: string, rest: string)
    requires |scheme| > 0 && NoneOf(scheme, NotWord) && !StartsWith(rest, "//")
    ensures var r := ParseBody(scheme, false, rest);
      (r.Err? ==> r.msg == InvalidFormat)
      && (r.Ok? ==> WellShaped(r.value) && r.value.scheme == scheme && Compose(r.value) == scheme + (":" + rest) && r.value.authority.None?)
  {
    ParseBodySound(scheme, false, rest);
    assert rest == "" + rest;
  }

  /**
   * A parse yields well-shaped components that spell the input back, with
   * an authority exactly when `//` follows the scheme's colon; a failure
   * is `Invalid URL format`.
   */
  lemma ParseUriSound(uri: string)
    ensures ParseUri(uri).Err? ==> ParseUri(uri).msg == InvalidFormat
    ensures ParseUri(uri).Ok? ==>
      var u := ParseUri(uri).value;
      WellShaped(u) && Compose(u) == uri
      && (u.authority.Some? <==> StartsWith(uri[|u.scheme| + 1..], "//"))
  {
    var (scheme, after) := Break(uri, NotWord);
    if |scheme| > 0 && |after| > 0 && after[0] == ':' {
      var rest := after[1..];
      assert after == ":" + rest;
      assert uri == scheme + (":" + rest);
      assert uri[|scheme| + 1..] == rest;
      ParseAfterColon(scheme, rest);
    }
  }

  /** Behind `//`, the authority runs to the first `/?#`, after which the tail follows. */
  lemma AuthorityFirst(a: string, path: Option<string>, query: Option<string>, f: string)
    requires NoneOf(a, AuthorityStop) && PathOk(path) && QueryOk(query) && (|f| > 0 ==> f[0] == '#')
    ensures Break(a + TailText(path, query, f), AuthorityStop) == (a, TailText(path, query, f))
  {
    var t := TailText(path, query, f);
    assert |t| > 0 ==> AuthorityStop(t[0]);
    BreakOf(a, t, AuthorityStop);
  }

  /** Without an authority, the would-be authority ends at the path's first `/`, or with the path. */
  lemma AuthorityInPath(p: string, query: Option<string>, f: string)
    requires NoneOf(p, PathStop) && QueryOk(query) && (|f| > 0 ==> f[0] == '#')
    ensures var (h, t) := Break(p, AuthorityStop);
      var path := if |t| > 0 then Some(t) else None;
      Break(TailText(Some(p), query, f), AuthorityStop) == (h, TailText(path, query, f))
      && PathOk(path) && p == h + OrElse(path, "")
  {
    var r := Break(p, AuthorityStop);
    var qf := OrElse(query, "") + f;
    assert |qf| > 0 ==> AuthorityStop(qf[0]);
    assert TailText(Some(p), query, f) == p + qf;
    if |r.1| > 0 {
      SlashCut(p, r.0, r.1, qf);
      assert TailText(Some(r.1), query, f) == r.1 + qf;
    } else {
      assert r.0 == p;
      BreakOf(p, qf, AuthorityStop);
      assert TailText(None, query, f) == qf;
    }
  }

  /** A path cut before its first `/` leaves a tail that is a well-shaped path, whatever follows it. */
  lemma SlashCut(p: string, h: string, t: string, qf: string)
    requires p == h + t && NoneOf(p, PathStop) && NoneOf(h, AuthorityStop) && |t| > 0 && AuthorityStop(t[0])
    ensures Break(p + qf, AuthorityStop) == (h, t + qf) && PathOk(Some(t))
  {
    NoneOfAppend(h, t, PathStop);
    assert p + qf == h + (t + qf);
    BreakOf(h, t + qf, AuthorityStop);
  }

  /** Every well-shaped body is parsed back into its components. */
  lemma ParseBodyComplete(u: UriParts)
    requires WellShaped(u)
    ensures ParseBody(u.scheme, u.authority.Some?, BodyText(u)) == Ok(u)
  {
    var f := OrElse(u.fragment, "");
    assert NoneOf(f, IsLineTerminator);
    if u.authority.Some? {
      AuthorityFirst(u.authority.value, u.path, u.query, f);
      SplitTailComplete(u.path, u.query, f);
    } else {
      var p := u.path.value;
      AuthorityInPath(p, u.query, f);
      var (h, t) := Break(p, AuthorityStop);
      SplitTailComplete(if |t| > 0 then Some(t) else None, u.query, f);
      assert BodyText(u) == TailText(Some(p), u.query, f);
    }
  }

  /** Without an authority, the text after the colon does not start with `//`. */
  lemma NoAuthorityNoSlashes(u: UriParts)
    requires WellShaped(u) && u.authority.None?
    ensures !StartsWith(BodyText(u), "//")
  {
    var p := u.path.value;
    var qf := OrElse(u.query, "") + OrElse(u.fragment, "");
    var b := BodyText(u);
    assert b == p + qf;
    assert |qf| > 0 ==> qf[0] != '/';
    if |b| >= 2 && |p| < 2 {
      assert |p| == 1 ==> b[1] == qf[0];
      assert |p| == 0 ==> b[0] == qf[0];
    } else if |b| >= 2 {
      assert b[..2] == p[..2];
    }
  }

  /** Every well-shaped set of components is parsed back from its composition. */
  lemma ParseUriComplete(u: UriParts)
    requires WellShaped(u)
    ensures ParseUri(Compose(u)) == Ok(u)
  {
    var uri := Compose(u);
    var rest := (if u.authority.Some? then "//" else "") + BodyText(u);
    assert uri == u.scheme + (":" + rest);
    BreakOf(u.scheme, ":" + rest, NotWord);
    assert (":" + rest)[1..] == rest;
    ParseBodyComplete(u);
    if u.authority.Some? {
      assert StartsWith(rest, "//") && rest[2..] == BodyText(u);
    } else {
      assert rest == BodyText(u);
      NoAuthorityNoSlashes(u);
    }
  }

  /** `parseUri` fails exactly on the strings no well-shaped components compose to. */
  lemma ParseUriFails(uri: string)
    ensures ParseUri(uri).Err? <==> forall u :: WellShaped(u) ==> Compose(u) != uri
  {
    ParseUriSound(uri);
    forall u | WellShaped(u) && Compose(u) == uri
      ensures ParseUri(uri).Ok?
    {
      ParseUriComplete(u);
    }
  }
}

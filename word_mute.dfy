/**
 * Hard word mutes (misc/check-word-mute.ts), in the wide-column store mode:
 * a note is muted when some muted-word entry matches the text assembled from
 * the note and the reply and renote previews stored with it. An entry is
 * either a group of keywords that must all occur (case-insensitively) or a
 * regular-expression literal `/pattern/flags` evaluated by the RE2 engine.
 */
module WordMute {
  import opened Common
  import opened ScyllaRows

  datatype MutePattern = Keywords(words: seq<string>) | RegexSource(src: string)

  /** What `new RE2(pattern, flags).test(text)` does: match, no match, or throw. */
  datatype RegexOutcome = Matches | NoMatch | Throws

  /** The RE2 engine as a function of (pattern, flags, subject); it is not part of this model. */
  type RegexTest = (string, string, string) -> RegexOutcome

  /** `files.map((f) => f.comment ?? "").join(" ")` */
  function Comments(files: seq<DriveFile>): string {
    if |files| == 0 then ""
    else if |files| == 1 then OrElse(files[0].comment, "")
    else OrElse(files[0].comment, "") + " " + Comments(files[1..])
  }

  /** `" " + comments` when there are files, nothing otherwise. */
  function FilesPart(files: seq<DriveFile>): string {
    if |files| > 0 then " " + Comments(files) else ""
  }

  /** The text of the note itself: content warning, body and attachment captions. */
  function OwnText(n: Note): string {
    OrElse(n.cw, "") + " " + OrElse(n.text, "") + FilesPart(n.files)
  }

  /** The reply and renote previews, as the store mode appends them. */
  function PreviewText(n: Note): string {
    OrElse(n.replyCw, "") + " " + OrElse(n.replyText, "") + " "
    + OrElse(n.renoteCw, "") + " " + OrElse(n.renoteText, "")
    + FilesPart(n.replyFiles) + FilesPart(n.renoteFiles)
  }

  /** The text before trimming as the source builds it: the previews follow the note's own text with no separator. */
  function MuteTextAsWritten(n: Note): string {
    OwnText(n) + PreviewText(n)
  }

  /** The text before trimming with a space between the note's own text and the previews. */
  function MuteText(n: Note): string {
    OwnText(n) + " " + PreviewText(n)
  }

  /** The line terminators, which `.` in a JavaScript regular expression does not match. */
  predicate IsLineTerminator(c: char) {
    c == '\n' || c == '\r' || c == '\U{2028}' || c == '\U{2029}'
  }

  /** The greatest index `j < k` with `s[j] == '/'`, if any. */
  function LastSlashBefore(s: string, k: nat): (r: Option<nat>)
    requires k <= |s|
    ensures r.Some? ==> r.value < k && s[r.value] == '/' && forall j :: r.value < j < k ==> s[j] != '/'
    ensures r.None? ==> forall j :: 0 <= j < k ==> s[j] != '/'
  {
    if k == 0 then None
    else if s[k - 1] == '/' then Some(k - 1)
    else LastSlashBefore(s, k - 1)
  }

  /**
   * `src.match(/^\/(.+)\/(.*)$/)` giving (pattern, flags): the greedy first
   * group ends at the last slash; no line terminator may occur after the
   * opening slash.
   */
  function RegexLiteral(src: string): (r: Option<(string, string)>)
    ensures r.Some? ==> src == "/" + r.value.0 + "/" + r.value.1
    ensures r.Some? ==> |r.value.0| > 0 && '/' !in r.value.1
    ensures r.Some? ==> forall i :: 0 <= i < |src| ==> !IsLineTerminator(src[i])
  {
    if |src| < 3 || src[0] != '/' || exists i :: 1 <= i < |src| && IsLineTerminator(src[i]) then None
    else
      match LastSlashBefore(src, |src|)
      case None => None
      case Some(j) =>
        if j < 2 then None
        else
          assert src == "/" + src[1..j] + "/" + src[j + 1..];
          Some((src[1..j], src[j + 1..]))
  }

  /** A literal written as `"/" + pattern + "/" + flags` is read back as that pattern and those flags. */
  lemma RegexLiteralRoundTrip(pattern: string, flags: string)
    requires |pattern| > 0 && '/' !in flags
    requires forall i :: 0 <= i < |pattern| ==> !IsLineTerminator(pattern[i])
    requires forall i :: 0 <= i < |flags| ==> !IsLineTerminator(flags[i])
    ensures RegexLiteral("/" + pattern + "/" + flags) == Some((pattern, flags))
  {
    var src := "/" + pattern + "/" + flags;
    var j := |pattern| + 1;
    assert src[j] == '/';
    assert forall k :: j < k < |src| ==> src[k] == flags[k - j - 1];
    forall i | 1 <= i < |src|
      ensures !IsLineTerminator(src[i])
    {
      if i < j { assert src[i] == pattern[i - 1]; } else if i > j { assert src[i] == flags[i - j - 1]; }
    }
    assert LastSlashBefore(src, |src|) == Some(j);
    assert src[1..j] == pattern;
    assert src[j + 1..] == flags;
  }

  /** `mutePattern.filter((keyword) => keyword !== "")` */
  function NonEmptyWords(words: seq<string>): (r: seq<string>)
    ensures forall w :: w in r <==> w in words && w != ""
  {
    Filter(words, (w: string) => w != "")
  }

  /** A keyword group matches when it has a non-empty keyword and every non-empty keyword occurs. */
  predicate KeywordsMatch(text: string, words: seq<string>) {
    var keywords := NonEmptyWords(words);
    |keywords| > 0 && forall k :: 0 <= k < |keywords| ==> Includes(Lower(text), Lower(keywords[k]))
  }

  /** Whether one muted-word entry mutes the (trimmed) text; a malformed literal or a throwing engine does not. */
  predicate PatternMutes(text: string, p: MutePattern, re2: RegexTest) {
    match p
    case Keywords(words) => KeywordsMatch(text, words)
    case RegexSource(src) =>
      var lit := RegexLiteral(src);
      lit.Some? && re2(lit.value.0, lit.value.1, text) == Matches
  }

  /** The specification of `checkWordMute`: a present note whose trimmed text is matched by some entry. */
  predicate WordMuted(note: Option<Note>, mutedWords: seq<MutePattern>, re2: RegexTest) {
    note.Some? && Subject(note.value) != "" && SomeEntryMutes(Subject(note.value), mutedWords, re2)
  }

  /** The trimmed text the entries are matched against. */
  function Subject(n: Note): string {
    Trim(MuteText(n))
  }

  predicate SomeEntryMutes(text: string, mutedWords: seq<MutePattern>, re2: RegexTest) {
    exists k :: 0 <= k < |mutedWords| && PatternMutes(text, mutedWords[k], re2)
  }

  /** The specification of `getWordHardMute`: never for the viewer's own notes, never without entries. */
  predicate HardMuted(note: Note, me: Option<string>, mutedWords: seq<MutePattern>, re2: RegexTest) {
    !(me.Some? && note.userId == me.value) && |mutedWords| > 0 && WordMuted(Some(note), mutedWords, re2)
  }

  /** The loop of `checkWordMute`: tries the entries in order and stops at the first that mutes. */
  method AnyEntryMutes(text: string, mutedWords: seq<MutePattern>, re2: RegexTest) returns (muted: bool)
    ensures muted == SomeEntryMutes(text, mutedWords, re2)
  {
    var i := 0;
    while i < |mutedWords|
      invariant 0 <= i <= |mutedWords|
      invariant forall k :: 0 <= k < i ==> !PatternMutes(text, mutedWords[k], re2)
    {
      var mutes: bool;
      if mutedWords[i].Keywords? {
        var keywords := NonEmptyWords(mutedWords[i].words);
        mutes := |keywords| > 0 && forall k :: 0 <= k < |keywords| ==> Includes(Lower(text), Lower(keywords[k]));
      } else {
        var lit := RegexLiteral(mutedWords[i].src);
        mutes := false;
        if lit.Some? {
          var outcome := re2(lit.value.0, lit.value.1, text);
          mutes := outcome == Matches;
        }
      }
      if mutes {
        return true;
      }
      i := i + 1;
    }
    return false;
  }

  /** `checkWordMute`: no note and an empty text never mute. */
  method CheckWordMute(note: Option<Note>, mutedWords: seq<MutePattern>, re2: RegexTest) returns (muted: bool)
    ensures muted == WordMuted(note, mutedWords, re2)
  {
    if note.None? {
      return false;
    }
    var text := Subject(note.value);
    if text == "" {
      return false;
    }
    muted := AnyEntryMutes(text, mutedWords, re2);
  }

  /** `getWordHardMute` */
  method GetWordHardMute(note: Note, me: Option<string>, mutedWords: seq<MutePattern>, re2: RegexTest) returns (ng: bool)
    ensures ng == HardMuted(note, me, mutedWords, re2)
  {
    if me.Some? && note.userId == me.value {
      return false;
    }
    ng := false;
    if |mutedWords| > 0 {
      ng := CheckWordMute(Some(note), mutedWords, re2);
    }
  }

  /** Adding entries never unmutes a note. */
  lemma WordMuteMonotone(note: Option<Note>, a: seq<MutePattern>, b: seq<MutePattern>, re2: RegexTest)
    requires WordMuted(note, a, re2)
    ensures WordMuted(note, a + b, re2) && WordMuted(note, b + a, re2)
  {
    var text := Trim(MuteText(note.value));
    var k :| 0 <= k < |a| && PatternMutes(text, a[k], re2);
    assert (a + b)[k] == a[k];
    assert (b + a)[|b| + k] == a[k];
  }

  lemma {:induction false} LowerIdempotent(s: string)
    ensures Lower(Lower(s)) == Lower(s)
  {
    var l := Lower(s);
    assert forall i :: 0 <= i < |s| ==> LowerChar(l[i]) == l[i];
  }

  /** A keyword group matches the same texts whether its keywords are written in upper or lower case. */
  lemma KeywordCaseInsensitive(text: string, word: string)
    requires word != "" && Lower(word) != ""
    ensures KeywordsMatch(text, [word]) <==> KeywordsMatch(text, [Lower(word)])
  {
    LowerIdempotent(word);
    assert NonEmptyWords([word]) == [word];
    assert NonEmptyWords([Lower(word)]) == [Lower(word)];
  }

  /** A group made only of empty keywords never mutes anything. */
  lemma EmptyKeywordsNeverMute(text: string, words: seq<string>)
    requires forall i :: 0 <= i < |words| ==> words[i] == ""
    ensures !KeywordsMatch(text, words)
  {
    FilterNone(words, (w: string) => w != "");
  }

  // ---------------------------------------------------------------------
  // The missing separator before the reply preview

  /** A note with body "ab" replying to a note whose content warning is "c"; no attachments, no renote. */
  function GlueExample(): Note {
    Note(0, 0, "n1", Public, Some("ab"), None, None, false, 0, 0, None, None, 0,
      [], [], [], [], [], [], [], false, None, None, None,
      "u1", None, Some("r1"), Some("u2"), None, None, Some("c"), [],
      None, None, None, None, None, [], map[], [], None, "[]")
  }

  function NoRegex(): RegexTest {
    (p: string, f: string, t: string) => NoMatch
  }

  lemma GlueRawText()
    ensures MuteTextAsWritten(GlueExample()) == " abc   "
    ensures MuteText(GlueExample()) == " ab c   "
  {
    var n := GlueExample();
    assert OwnText(n) == " ab";
    assert PreviewText(n) == "c   ";
  }

  lemma TrimGlued()
    ensures Trim(" abc   ") == "abc"
  {
    assert " abc   "[1..] == "abc   ";
    assert "abc   "[..5] == "abc  " && "abc  "[..4] == "abc " && "abc "[..3] == "abc";
  }

  lemma TrimSeparated()
    ensures Trim(" ab c   ") == "ab c"
  {
    assert " ab c   "[1..] == "ab c   ";
    assert "ab c   "[..6] == "ab c  " && "ab c  "[..5] == "ab c " && "ab c "[..4] == "ab c";
  }

  lemma GlueTextAsWritten()
    ensures Trim(MuteTextAsWritten(GlueExample())) == "abc"
  {
    GlueRawText();
    TrimGlued();
  }

  lemma GlueText()
    ensures Subject(GlueExample()) == "ab c"
  {
    GlueRawText();
    TrimSeparated();
  }

  /**
   * As written, the body "ab" and the reply's content warning "c" run
   * together into "abc", so the keyword "bc", which occurs in neither, mutes
   * the note.
   */
  lemma GlueMutesAsWritten()
    ensures KeywordsMatch(Trim(MuteTextAsWritten(GlueExample())), ["bc"])
    ensures !Includes("ab", "bc") && !Includes("c", "bc")
  {
    GlueTextAsWritten();
    assert NonEmptyWords(["bc"]) == ["bc"];
    assert Lower("abc") == "abc";
    assert Lower("bc") == "bc";
    assert "abc"[1..] == "bc";
    assert StartsWith("bc", "bc");
    assert Includes("abc", "bc");
    NotIncludesLonger("c", "bc");
    NotIncludesLonger("ab"[1..], "bc");
    assert "ab"[..2] == "ab";
  }

  /** With the separator the same note reads "ab c", and the keyword "bc" does not mute it. */
  lemma GlueDoesNotMute()
    ensures !WordMuted(Some(GlueExample()), [Keywords(["bc"])], NoRegex())
  {
    GlueText();
    SeparatedNotMuted();
  }

  /** The keyword "bc" does not mute the text "ab c". */
  lemma SeparatedNotMuted()
    ensures !SomeEntryMutes("ab c", [Keywords(["bc"])], NoRegex())
  {
    SeparatedHasNoBc();
    assert NonEmptyWords(["bc"]) == ["bc"];
    LowerNoUpper("ab c");
    LowerNoUpper("bc");
    assert !PatternMutes("ab c", Keywords(["bc"]), NoRegex());
  }

  /** "bc" does not occur in "ab c". */
  lemma SeparatedHasNoBc()
    ensures !Includes("ab c", "bc")
  {
    assert "ab c"[1..] == "b c" && "b c"[1..] == " c" && " c"[1..] == "c";
    assert "ab c"[..2] == "ab" && "b c"[..2] == "b " && " c"[..2] == " c";
    NotIncludesLonger("c", "bc");
    assert !Includes(" c", "bc");
    assert !Includes("b c", "bc");
  }

  /** With the separator, the note's own text and the previews are separated by a space. */
  lemma SeparatedByBlank(n: Note)
    ensures MuteText(n)[|OwnText(n)|] == ' '
    ensures MuteText(n)[..|OwnText(n)|] == OwnText(n)
    ensures MuteText(n)[|OwnText(n)| + 1..] == PreviewText(n)
  {
  }
}

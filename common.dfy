/**
 * Shared vocabulary of the model: optional values and results, the
 * order-preserving filter every timeline stage is built from, slicing with
 * the JavaScript `Array.prototype.slice` conventions, a stable descending
 * sort, JavaScript truthiness of optional strings, and the UTC day
 * arithmetic the wide-column store partitions by.
 */
module Common {

  datatype Option<T> = None | Some(value: T)

  /** An operation that either yields a value or fails with the message the service throws. */
  datatype Result<T> = Ok(value: T) | Err(msg: string)

  // ---------------------------------------------------------------------
  // JavaScript truthiness

  /** `if (s)` on an optional string: present and not the empty string. */
  predicate Truthy(s: Option<string>) {
    s.Some? && s.value != ""
  }

  /** `a ?? b` */
  function OrElse<T>(o: Option<T>, d: T): T {
    if o.Some? then o.value else d
  }

  // ---------------------------------------------------------------------
  // Subsequences and filtering

  /** `a` is obtained from `b` by deleting elements, keeping the order of the rest. */
  predicate IsSubseq<T(==)>(a: seq<T>, b: seq<T>)
    decreases |b|
  {
    |a| == 0 || (|b| > 0 && ((a[0] == b[0] && IsSubseq(a[1..], b[1..])) || IsSubseq(a, b[1..])))
  }

  /** `s.filter(p)` */
  function Filter<T(!new)>(s: seq<T>, p: T -> bool): (r: seq<T>)
    ensures |r| <= |s|
    ensures forall x :: x in r <==> x in s && p(x)
    ensures forall i :: 0 <= i < |r| ==> p(r[i])
  {
    if |s| == 0 then []
    else if p(s[0]) then [s[0]] + Filter(s[1..], p)
    else Filter(s[1..], p)
  }

  lemma {:induction false} SubseqRefl<T>(s: seq<T>)
    ensures IsSubseq(s, s)
    decreases |s|
  {
    if |s| > 0 {
      SubseqRefl(s[1..]);
    }
  }

  lemma {:induction false} SubseqTail<T>(a: seq<T>, b: seq<T>)
    requires |b| > 0 && IsSubseq(a, b[1..])
    ensures IsSubseq(a, b)
  {
  }

  lemma {:induction false} FilterIsSubseq<T(!new)>(s: seq<T>, p: T -> bool)
    ensures IsSubseq(Filter(s, p), s)
    decreases |s|
  {
    if |s| > 0 {
      FilterIsSubseq(s[1..], p);
      if p(s[0]) {
        assert Filter(s, p)[1..] == Filter(s[1..], p);
      }
    }
  }

  lemma {:induction false} SubseqTrans<T>(a: seq<T>, b: seq<T>, c: seq<T>)
    requires IsSubseq(a, b) && IsSubseq(b, c)
    ensures IsSubseq(a, c)
    decreases |c|, |b|
  {
    if |a| == 0 {
    } else if |c| == 0 {
    } else if |b| > 0 && a[0] == b[0] && IsSubseq(a[1..], b[1..]) {
      if b[0] == c[0] && IsSubseq(b[1..], c[1..]) {
        SubseqTrans(a[1..], b[1..], c[1..]);
      } else {
        SubseqTrans(a, b, c[1..]);
      }
    } else {
      assert |b| > 0 && IsSubseq(a, b[1..]);
      if b[0] == c[0] && IsSubseq(b[1..], c[1..]) {
        SubseqTrans(a, b[1..], c[1..]);
      } else {
        SubseqTrans(a, b, c[1..]);
      }
    }
  }

  lemma {:induction false} SubseqMembers<T>(a: seq<T>, b: seq<T>)
    requires IsSubseq(a, b)
    ensures forall x :: x in a ==> x in b
    ensures |a| <= |b|
    decreases |b|
  {
    if |a| == 0 {
    } else if a[0] == b[0] && IsSubseq(a[1..], b[1..]) {
      SubseqMembers(a[1..], b[1..]);
      assert forall x :: x in a ==> x == a[0] || x in a[1..];
    } else {
      SubseqMembers(a, b[1..]);
    }
  }

  /** Filtering twice with the same predicate is filtering once. */
  lemma {:induction false} FilterIdempotent<T(!new)>(s: seq<T>, p: T -> bool)
    ensures Filter(Filter(s, p), p) == Filter(s, p)
    decreases |s|
  {
    if |s| > 0 {
      FilterIdempotent(s[1..], p);
      if p(s[0]) {
        assert Filter(s, p) == [s[0]] + Filter(s[1..], p);
        assert Filter(s, p)[1..] == Filter(s[1..], p);
      }
    }
  }

  /** Two filters in a row are one filter by the conjunction. */
  lemma {:induction false} FilterFuse<T(!new)>(s: seq<T>, p: T -> bool, q: T -> bool)
    ensures Filter(Filter(s, p), q) == Filter(s, x => p(x) && q(x))
    decreases |s|
  {
    if |s| > 0 {
      FilterFuse(s[1..], p, q);
      if p(s[0]) {
        assert Filter(s, p)[1..] == Filter(s[1..], p);
      }
    }
  }

  /** A filter whose predicate holds of every element changes nothing. */
  lemma {:induction false} FilterAll<T(!new)>(s: seq<T>, p: T -> bool)
    requires forall i :: 0 <= i < |s| ==> p(s[i])
    ensures Filter(s, p) == s
    decreases |s|
  {
    if |s| > 0 {
      FilterAll(s[1..], p);
    }
  }

  /** Filters by predicates that agree on the elements give the same result. */
  lemma {:induction false} FilterExt<T(!new)>(s: seq<T>, p: T -> bool, q: T -> bool)
    requires forall i :: 0 <= i < |s| ==> p(s[i]) == q(s[i])
    ensures Filter(s, p) == Filter(s, q)
    decreases |s|
  {
    if |s| > 0 {
      FilterExt(s[1..], p, q);
    }
  }

  /** A weaker predicate keeps a superset, in the same order. */
  lemma {:induction false} FilterMonotone<T(!new)>(s: seq<T>, p: T -> bool, q: T -> bool)
    requires forall i :: 0 <= i < |s| ==> p(s[i]) ==> q(s[i])
    ensures IsSubseq(Filter(s, p), Filter(s, q))
    decreases |s|
  {
    if |s| > 0 {
      FilterMonotone(s[1..], p, q);
      if p(s[0]) {
        assert Filter(s, p)[1..] == Filter(s[1..], p);
        assert Filter(s, q)[1..] == Filter(s[1..], q);
      } else if q(s[0]) {
        assert Filter(s, q)[1..] == Filter(s[1..], q);
      }
    }
  }

  /** Two filters applied in either order give the same result. */
  lemma FilterCommute<T(!new)>(s: seq<T>, p: T -> bool, q: T -> bool)
    ensures Filter(Filter(s, p), q) == Filter(Filter(s, q), p)
  {
    FilterFuse(s, p, q);
    FilterFuse(s, q, p);
    FilterExt(s, x => p(x) && q(x), x => q(x) && p(x));
  }

  /** The predicate `x => !c || p(x)`: `p` when `c` holds, anything otherwise. */
  function When<T>(c: bool, p: T -> bool): T -> bool {
    x => !c || p(x)
  }

  /** `if (c) s = s.filter(p)` is one filter by `When(c, p)`. */
  lemma FilterWhen<T(!new)>(c: bool, s: seq<T>, p: T -> bool)
    ensures (if c then Filter(s, p) else s) == Filter(s, When(c, p))
  {
    if c {
      FilterExt(s, p, When(c, p));
    } else {
      FilterAll(s, When(c, p));
    }
  }

  /** The predicate `x => p(x) && q(x)`. */
  function Both<T>(p: T -> bool, q: T -> bool): T -> bool {
    x => p(x) && q(x)
  }

  /** Two filters in a row are one filter by both predicates. */
  lemma FilterBoth<T(!new)>(s: seq<T>, p: T -> bool, q: T -> bool)
    ensures Filter(Filter(s, p), q) == Filter(s, Both(p, q))
  {
    FilterFuse(s, p, q);
    FilterExt(s, x => p(x) && q(x), Both(p, q));
  }

  /** A filter whose predicate holds of no element leaves nothing. */
  lemma {:induction false} FilterNone<T(!new)>(s: seq<T>, p: T -> bool)
    requires forall i :: 0 <= i < |s| ==> !p(s[i])
    ensures Filter(s, p) == []
    decreases |s|
  {
    if |s| > 0 {
      FilterNone(s[1..], p);
    }
  }

  /** Filters over the same predicate distribute over concatenation. */
  lemma {:induction false} FilterAppend<T(!new)>(a: seq<T>, b: seq<T>, p: T -> bool)
    ensures Filter(a + b, p) == Filter(a, p) + Filter(b, p)
    decreases |a|
  {
    if |a| == 0 {
      assert a + b == b;
    } else {
      assert (a + b)[1..] == a[1..] + b;
      FilterAppend(a[1..], b, p);
    }
  }

  /** `s.map(f)` */
  function MapSeq<A, B>(s: seq<A>, f: A -> B): (r: seq<B>)
    ensures |r| == |s|
    ensures forall i :: 0 <= i < |s| ==> r[i] == f(s[i])
  {
    if |s| == 0 then [] else [f(s[0])] + MapSeq(s[1..], f)
  }

  /** The predicate `x => p(f(x))`. */
  function Compose<A, B>(f: A -> B, p: B -> bool): A -> bool {
    x => p(f(x))
  }

  lemma {:induction false} MapAppend<A, B>(a: seq<A>, b: seq<A>, f: A -> B)
    ensures MapSeq(a + b, f) == MapSeq(a, f) + MapSeq(b, f)
    decreases |a|
  {
    if |a| == 0 {
      assert a + b == b;
    } else {
      assert (a + b)[1..] == a[1..] + b;
      MapAppend(a[1..], b, f);
    }
  }

  /** Decoding and then filtering keeps the decodings of the rows whose decoding passes. */
  lemma {:induction false} FilterMap<A(!new), B(!new)>(s: seq<A>, f: A -> B, p: B -> bool)
    ensures Filter(MapSeq(s, f), p) == MapSeq(Filter(s, Compose(f, p)), f)
    decreases |s|
  {
    if |s| > 0 {
      FilterMap(s[1..], f, p);
      assert MapSeq(s, f)[1..] == MapSeq(s[1..], f);
    }
  }

  /** The values `s.map(f)` holds are the images of the elements of `s`. */
  /** A filter and its negation split a sequence: each element goes to exactly one side. */
  lemma {:induction false} FilterSplit<T(!new)>(s: seq<T>, p: T -> bool, q: T -> bool)
    requires forall i :: 0 <= i < |s| ==> q(s[i]) == !p(s[i])
    ensures |Filter(s, p)| + |Filter(s, q)| == |s|
    ensures forall x :: x in s ==> (x in Filter(s, p) <==> x !in Filter(s, q))
    decreases |s|
  {
    if |s| > 0 {
      assert forall i :: 0 <= i < |s[1..]| ==> s[1..][i] == s[i + 1];
      FilterSplit(s[1..], p, q);
      forall x | x in s
        ensures x in Filter(s, p) <==> x !in Filter(s, q)
      {
        var i :| 0 <= i < |s| && s[i] == x;
      }
    }
  }

  lemma MapSeqMembers<A, B>(s: seq<A>, f: A -> B, x: B)
    ensures x in MapSeq(s, f) <==> exists y :: y in s && f(y) == x
  {
    if x in MapSeq(s, f) {
      var i :| 0 <= i < |s| && MapSeq(s, f)[i] == x;
      assert s[i] in s;
    }
    if exists y :: y in s && f(y) == x {
      var y :| y in s && f(y) == x;
      var i :| 0 <= i < |s| && s[i] == y;
      assert MapSeq(s, f)[i] == x;
    }
  }

  /** Mapping a sorted sequence by a function that keeps the sort key leaves it sorted. */
  lemma SortedMap<A, B>(s: seq<A>, f: A -> B, ka: A -> int, kb: B -> int)
    requires SortedDesc(s, ka)
    requires forall i :: 0 <= i < |s| ==> kb(f(s[i])) == ka(s[i])
    ensures SortedDesc(MapSeq(s, f), kb)
  {
    var m := MapSeq(s, f);
    forall i, j | 0 <= i < j < |m|
      ensures kb(m[i]) >= kb(m[j])
    {
      assert kb(m[i]) == ka(s[i]);
      assert kb(m[j]) == ka(s[j]);
    }
  }

  /** Cutting a sorted sequence leaves it sorted. */
  lemma SortedTake<T>(s: seq<T>, key: T -> int, n: int)
    requires SortedDesc(s, key)
    ensures SortedDesc(Take(s, n), key)
  {
    var t := Take(s, n);
    forall i, j | 0 <= i < j < |t|
      ensures key(t[i]) >= key(t[j])
    {
      assert t[i] == s[i] && t[j] == s[j];
    }
  }

  /** A prefix of a sorted sequence is sorted. */
  lemma SortedPrefix<T>(s: seq<T>, key: T -> int, k: int)
    requires SortedDesc(s, key) && 0 <= k <= |s|
    ensures SortedDesc(s[..k], key)
  {
    forall i, j | 0 <= i < j < k
      ensures key(s[..k][i]) >= key(s[..k][j])
    {
      assert s[..k][i] == s[i] && s[..k][j] == s[j];
    }
  }

  /** Mapping a sorted sequence by a function that keeps the sort key, then cutting it, leaves it sorted. */
  lemma SortedMapTake<A, B>(s: seq<A>, f: A -> B, ka: A -> int, kb: B -> int, n: int)
    requires SortedDesc(s, ka)
    requires forall i :: 0 <= i < |s| ==> kb(f(s[i])) == ka(s[i])
    ensures SortedDesc(Take(MapSeq(s, f), n), kb)
  {
    SortedMap(s, f, ka, kb);
    SortedTake(MapSeq(s, f), kb, n);
  }

  // ---------------------------------------------------------------------
  // Slicing

  function Min(a: int, b: int): int { if a <= b then a else b }
  function Max(a: int, b: int): int { if a >= b then a else b }

  /** `s.slice(0, n)`; `Take(s, n)` is `s` when `n >= |s|`. */
  function Take<T>(s: seq<T>, n: int): (r: seq<T>)
    ensures |r| == if n <= 0 then 0 else Min(n, |s|)
    ensures n >= |s| ==> r == s
    ensures forall i :: 0 <= i < |r| ==> r[i] == s[i]
  {
    if n <= 0 then [] else s[..Min(n, |s|)]
  }

  /** The index `slice` uses for one of its arguments: negative counts from the end, clamped to `[0, len]`. */
  function SliceIndex(k: int, len: nat): (r: nat)
    ensures r <= len
    ensures 0 <= k <= len ==> r == k
    ensures k > len ==> r == len
    ensures k < 0 ==> r == Max(len + k, 0)
  {
    if k < 0 then (if len + k < 0 then 0 else len + k)
    else if k > len then len
    else k
  }

  /** `s.slice(start, end)` with JavaScript's handling of negative and out-of-range indices. */
  function JsSlice<T>(s: seq<T>, start: int, end: int): (r: seq<T>)
    ensures |r| <= |s|
    ensures 0 <= start <= end <= |s| ==> r == s[start..end]
    ensures forall x :: x in r ==> x in s
    ensures start == 0 ==> r == s[..|r|]
  {
    var a := SliceIndex(start, |s|);
    var b := SliceIndex(end, |s|);
    if a < b then s[a..b] else []
  }

  /** `s.slice(a, a + n)` holds at most `n` elements, whatever the sign of `a`. */
  lemma JsSliceWindow<T>(s: seq<T>, a: int, n: int)
    requires n >= 0
    ensures |JsSlice(s, a, a + n)| <= n
  {
  }

  /** A slice of a sorted sequence is sorted. */
  lemma JsSliceSorted<T>(s: seq<T>, a: int, b: int, key: T -> int)
    requires SortedDesc(s, key)
    ensures SortedDesc(JsSlice(s, a, b), key)
  {
    var i := SliceIndex(a, |s|);
    var j := SliceIndex(b, |s|);
    if i < j {
      assert JsSlice(s, a, b) == s[i..j];
      forall x, y | 0 <= x < y < j - i
        ensures key(s[i..j][x]) >= key(s[i..j][y])
      {
        assert s[i..j][x] == s[i + x] && s[i..j][y] == s[i + y];
      }
    }
  }

  /** `s.slice(0, n)` for `n >= 0` keeps the first `n` elements, or all of them. */
  lemma JsSliceFront<T>(s: seq<T>, n: int)
    requires n >= 0
    ensures JsSlice(s, 0, n) == Take(s, n)
  {
  }

  // ---------------------------------------------------------------------
  // Sorting

  predicate SortedDesc<T>(s: seq<T>, key: T -> int) {
    forall i, j :: 0 <= i < j < |s| ==> key(s[i]) >= key(s[j])
  }

  /** Filtering a sorted sequence leaves it sorted. */
  lemma {:induction false} FilterSorted<T(!new)>(s: seq<T>, p: T -> bool, key: T -> int)
    requires SortedDesc(s, key)
    ensures SortedDesc(Filter(s, p), key)
    decreases |s|
  {
    if |s| > 0 {
      var t := Filter(s[1..], p);
      assert SortedDesc(s[1..], key);
      FilterSorted(s[1..], p, key);
      if p(s[0]) {
        var r := Filter(s, p);
        assert r == [s[0]] + t;
        forall j | 0 < j < |r|
          ensures key(r[0]) >= key(r[j])
        {
          assert r[j] == t[j - 1] && t[j - 1] in t;
          var k :| 0 <= k < |s[1..]| && s[1..][k] == t[j - 1];
          assert s[k + 1] == r[j];
        }
      }
    }
  }

  /** Two sorted runs, the second entirely no larger than the first, concatenate to a sorted run. */
  lemma SortedAppend<T>(a: seq<T>, b: seq<T>, key: T -> int)
    requires SortedDesc(a, key) && SortedDesc(b, key)
    requires forall i, j :: 0 <= i < |a| && 0 <= j < |b| ==> key(a[i]) >= key(b[j])
    ensures SortedDesc(a + b, key)
  {
    var c := a + b;
    forall i, j | 0 <= i < j < |c|
      ensures key(c[i]) >= key(c[j])
    {
      if j < |a| {
      } else if i < |a| {
        assert c[i] == a[i] && c[j] == b[j - |a|];
      } else {
        assert c[i] == b[i - |a|] && c[j] == b[j - |a|];
      }
    }
  }

  /** Insert `x` before the first element whose key is not larger, keeping equal keys in input order. */
  function InsertDesc<T>(x: T, s: seq<T>, key: T -> int): (r: seq<T>)
    ensures multiset(r) == multiset(s) + multiset{x}
    ensures |r| == |s| + 1
    ensures forall k :: 0 <= k < |r| ==> r[k] == x || r[k] in s
  {
    if |s| == 0 || key(s[0]) <= key(x) then [x] + s
    else
      assert s == [s[0]] + s[1..];
      [s[0]] + InsertDesc(x, s[1..], key)
  }

  /** A sorted run whose keys are all at most `key(h)` stays sorted with `h` in front. */
  lemma SortedCons<T>(h: T, s: seq<T>, key: T -> int)
    requires SortedDesc(s, key)
    requires forall k :: 0 <= k < |s| ==> key(s[k]) <= key(h)
    ensures SortedDesc([h] + s, key)
  {
    var r := [h] + s;
    forall i, j | 0 <= i < j < |r|
      ensures key(r[i]) >= key(r[j])
    {
      assert r[j] == s[j - 1];
      if i > 0 {
        assert r[i] == s[i - 1];
      }
    }
  }

  /** Inserting keeps every key under a bound that `x` and all of `s` are under. */
  lemma InsertDescBounded<T>(x: T, s: seq<T>, key: T -> int, b: int)
    requires key(x) <= b
    requires forall k :: 0 <= k < |s| ==> key(s[k]) <= b
    ensures forall k :: 0 <= k < |InsertDesc(x, s, key)| ==> key(InsertDesc(x, s, key)[k]) <= b
  {
    var r := InsertDesc(x, s, key);
    forall k | 0 <= k < |r|
      ensures key(r[k]) <= b
    {
      if r[k] != x {
        var m :| 0 <= m < |s| && s[m] == r[k];
      }
    }
  }

  lemma {:induction false} InsertDescSorted<T>(x: T, s: seq<T>, key: T -> int)
    requires SortedDesc(s, key)
    ensures SortedDesc(InsertDesc(x, s, key), key)
    decreases |s|
  {
    if |s| > 0 && key(s[0]) > key(x) {
      var tail := s[1..];
      assert SortedDesc(tail, key);
      InsertDescSorted(x, tail, key);
      assert forall k :: 0 <= k < |tail| ==> key(tail[k]) <= key(s[0]) by {
        forall k | 0 <= k < |tail|
          ensures key(tail[k]) <= key(s[0])
        {
          assert tail[k] == s[k + 1];
        }
      }
      InsertDescBounded(x, tail, key, key(s[0]));
      SortedCons(s[0], InsertDesc(x, tail, key), key);
    } else {
      SortedCons(x, s, key);
    }
  }

  /**
   * `s.sort((a, b) => key(b) - key(a))`: a stable sort, largest key first.
   */
  function SortDesc<T>(s: seq<T>, key: T -> int): (r: seq<T>)
    ensures multiset(r) == multiset(s)
    ensures |r| == |s|
    ensures SortedDesc(r, key)
  {
    if |s| == 0 then []
    else
      assert s == [s[0]] + s[1..];
      InsertDescSorted(s[0], SortDesc(s[1..], key), key);
      InsertDesc(s[0], SortDesc(s[1..], key), key)
  }

  /** Every element of a sorted sequence has a key no smaller than its last element's. */
  lemma LastIsMinimum<T>(s: seq<T>, key: T -> int)
    requires SortedDesc(s, key) && |s| > 0
    ensures forall i :: 0 <= i < |s| ==> key(s[i]) >= key(s[|s| - 1])
  {
  }

  // ---------------------------------------------------------------------
  // Strings

  /** `s.startsWith(p)` */
  predicate StartsWith(s: string, p: string) {
    |p| <= |s| && s[..|p|] == p
  }

  /** `hay.includes(needle)` */
  predicate Includes(hay: string, needle: string)
    decreases |hay|
  {
    StartsWith(hay, needle) || (|hay| > 0 && Includes(hay[1..], needle))
  }

  lemma {:induction false} NotIncludesLonger(hay: string, needle: string)
    requires |hay| < |needle|
    ensures !Includes(hay, needle)
    decreases |hay|
  {
    if |hay| > 0 {
      NotIncludesLonger(hay[1..], needle);
    }
  }

  /** Lower-casing of one character; only the ASCII letters are mapped (see README). */
  function LowerChar(c: char): char {
    if 'A' <= c <= 'Z' then (c as int + 32) as char else c
  }

  /** `s.toLowerCase()` */
  function Lower(s: string): (r: string)
    ensures |r| == |s|
    ensures forall i :: 0 <= i < |s| ==> r[i] == LowerChar(s[i])
  {
    if |s| == 0 then "" else [LowerChar(s[0])] + Lower(s[1..])
  }

  /** Lowering text without capitals leaves it as it is. */
  lemma {:induction false} LowerNoUpper(s: string)
    requires forall i :: 0 <= i < |s| ==> !('A' <= s[i] <= 'Z')
    ensures Lower(s) == s
    decreases |s|
  {
    if |s| > 0 {
      LowerNoUpper(s[1..]);
      assert s == [s[0]] + s[1..];
    }
  }

  /** The regular-expression class `\w` without the `u` flag: `[A-Za-z0-9_]`. */
  predicate IsWordChar(c: char) {
    'A' <= c <= 'Z' || 'a' <= c <= 'z' || '0' <= c <= '9' || c == '_'
  }

  /** `parts.join(sep)` */
  function Join(parts: seq<string>, sep: string): string {
    if |parts| == 0 then ""
    else if |parts| == 1 then parts[0]
    else parts[0] + sep + Join(parts[1..], sep)
  }

  /** The characters `String.prototype.trim` removes: white space and line terminators. */
  predicate IsJsSpace(c: char) {
    c == '\t' || c == '\n' || c == '\U{000B}' || c == '\U{000C}' || c == '\r' || c == ' '
    || c == '\U{00A0}' || c == '\U{1680}' || ('\U{2000}' <= c <= '\U{200A}')
    || c == '\U{2028}' || c == '\U{2029}' || c == '\U{202F}' || c == '\U{205F}'
    || c == '\U{3000}' || c == '\U{FEFF}'
  }

  function TrimStart(s: string): (r: string)
    ensures |r| <= |s|
  {
    if |s| == 0 || !IsJsSpace(s[0]) then s else TrimStart(s[1..])
  }

  function TrimEnd(s: string): (r: string)
    ensures |r| <= |s|
  {
    if |s| == 0 || !IsJsSpace(s[|s| - 1]) then s else TrimEnd(s[..|s| - 1])
  }

  /** `s.trim()` */
  function Trim(s: string): (r: string)
    ensures |r| <= |s|
  {
    TrimEnd(TrimStart(s))
  }

  // ---------------------------------------------------------------------
  // Time: milliseconds since the epoch, UTC days

  const DayMs: int := 86400000

  /** The UTC day number of an instant; also the `createdAtDate` partition it falls into. */
  function Day(t: int): int { t / DayMs }

  /** First instant of a UTC day. */
  function DayStart(d: int): int { d * DayMs }

  /**
   * `new Date(t - ONEDAY)` followed by `setUTCHours(23, 59, 59, 999)`: the
   * last millisecond of the UTC day before the day of `t`.
   */
  function EndOfPreviousDay(t: int): (r: int)
    ensures r < t
    ensures Day(r) == Day(t) - 1
    ensures r == DayStart(Day(t)) - 1
  {
    var y := t - DayMs;
    var r := DayStart(Day(y)) + 23 * 3600000 + 59 * 60000 + 59 * 1000 + 999;
    assert Day(y) == Day(t) - 1;
    r
  }

  // ---------------------------------------------------------------------
  // Counting table rows below a cursor (termination measure of the paging loops)

  function CountBelow<R>(t: seq<R>, stamp: R -> int, u: int): nat
    decreases |t|
  {
    if |t| == 0 then 0 else (if stamp(t[0]) < u then 1 else 0) + CountBelow(t[1..], stamp, u)
  }

  lemma {:induction false} CountBelowMono<R>(t: seq<R>, stamp: R -> int, u1: int, u2: int)
    requires u1 <= u2
    ensures CountBelow(t, stamp, u1) <= CountBelow(t, stamp, u2)
    decreases |t|
  {
    if |t| > 0 {
      CountBelowMono(t[1..], stamp, u1, u2);
    }
  }

  /** At most every row lies below the cursor. */
  lemma {:induction false} CountBelowLen<R>(t: seq<R>, stamp: R -> int, u: int)
    ensures CountBelow(t, stamp, u) <= |t|
    decreases |t|
  {
    if |t| > 0 {
      CountBelowLen(t[1..], stamp, u);
    }
  }

  /** Lowering the cursor past a row's timestamp strictly shrinks the count. */
  lemma {:induction false} CountBelowStrict<R>(t: seq<R>, stamp: R -> int, u1: int, u2: int, x: R)
    requires u1 <= u2
    requires x in t && u1 <= stamp(x) < u2
    ensures CountBelow(t, stamp, u1) < CountBelow(t, stamp, u2)
    decreases |t|
  {
    if t[0] == x {
      CountBelowMono(t[1..], stamp, u1, u2);
    } else {
      CountBelowStrict(t[1..], stamp, u1, u2, x);
    }
  }

  // ---------------------------------------------------------------------
  // Arrays read back from a JavaScript `Set`

  predicate NoDup<T(==)>(s: seq<T>) {
    forall i, j :: 0 <= i < j < |s| ==> s[i] != s[j]
  }

  /** `Array.from(new Set(s))`: every element once, in the order of first occurrence. */
  function Distinct<T(==,!new)>(s: seq<T>): (r: seq<T>)
    ensures forall x :: x in r <==> x in s
    ensures NoDup(r)
    ensures |r| <= |s|
    decreases |s|
  {
    if |s| == 0 then []
    else
      var d := Distinct(s[..|s| - 1]);
      assert s == s[..|s| - 1] + [s[|s| - 1]];
      if s[|s| - 1] in d then d else d + [s[|s| - 1]]
  }

  /** `set.add(x)` on a set read from `s`: a new element goes last, a present one changes nothing. */
  lemma DistinctSnoc<T(!new)>(s: seq<T>, x: T)
    ensures x !in s ==> Distinct(s + [x]) == Distinct(s) + [x]
    ensures x in s ==> Distinct(s + [x]) == Distinct(s)
  {
    assert (s + [x])[..|s|] == s;
  }

  /** The first element of a `Set` built from `s` is `s`'s first element. */
  lemma {:induction false} DistinctHead<T(!new)>(s: seq<T>)
    requires |s| > 0
    ensures |Distinct(s)| > 0 && Distinct(s)[0] == s[0]
    decreases |s|
  {
    if |s| > 1 {
      DistinctHead(s[..|s| - 1]);
    } else {
      assert s[..|s| - 1] == [];
    }
  }
}

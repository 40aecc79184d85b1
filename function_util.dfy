/**
 * The pure string helpers of the utility file: spreadsheet column names
 * (bijective base 26) and the page id at the end of a Facebook url.
 */
module FunctionUtil {

  /** The letters `numberToColumn` indexes with `n % 26`. */
  const Alphabet: string := "ABCDEFGHIJKLMNOPQRSTUVWXYZ"

  predicate IsColumnLetter(c: char) {
    'A' <= c <= 'Z'
  }

  predicate IsColumnName(s: string) {
    |s| >= 1 && forall i :: 0 <= i < |s| ==> IsColumnLetter(s[i])
  }

  /** The letter `d` places after 'A'. */
  function Letter(d: nat): (c: char)
    requires d < 26
    ensures IsColumnLetter(c)
  {
    ('A' as int + d) as char
  }

  /** Letter(d) is the letter at index `d` of the alphabet `numberToColumn` indexes. */
  lemma {:induction false} LetterInAlphabet(d: nat)
    requires d < 26
    ensures Alphabet[d] == Letter(d)
  {
  }

  /** The position of a column letter in the alphabet. */
  function LetterIndex(c: char): (d: nat)
    requires IsColumnLetter(c)
    ensures d < 26 && Letter(d) == c
  {
    c as int - 'A' as int
  }

  // ---------------------------------------------------------------------
  // numberToColumn
  // ---------------------------------------------------------------------

  /**
   * `numberToColumn(n)`: 0 is "A", 25 is "Z", 26 is "AA". The source's
   * `Math.floor(n / 26) - 1` is Dafny's `n / 26 - 1` on naturals.
   */
  function NumberToColumn(n: nat): (r: string)
    ensures IsColumnName(r)
    ensures r[|r| - 1] == Letter(n % 26)
    ensures n < 26 ==> |r| == 1
    ensures n >= 26 ==> |r| >= 2
  {
    var res := Letter(n % 26);
    if n >= 26 then NumberToColumn(n / 26 - 1) + [res] else [res]
  }

  /** Reads a column name back as a number: the inverse of NumberToColumn. */
  function ColumnToNumber(s: string): (n: nat)
    requires IsColumnName(s)
    ensures |s| == 1 <==> n < 26
  {
    var d := LetterIndex(s[|s| - 1]);
    if |s| == 1 then d else (ColumnToNumber(s[..|s| - 1]) + 1) * 26 + d
  }

  /** Decoding the name of `n` gives back `n`. */
  lemma {:induction false} ColumnRoundTrip(n: nat)
    ensures ColumnToNumber(NumberToColumn(n)) == n
  {
    if n >= 26 {
      var m := n / 26 - 1;
      ColumnRoundTrip(m);
      var s := NumberToColumn(n);
      assert s[..|s| - 1] == NumberToColumn(m);
    }
  }

  /** Every column name is the name of the number it decodes to. */
  lemma {:induction false} ColumnRoundTripInverse(s: string)
    requires IsColumnName(s)
    ensures NumberToColumn(ColumnToNumber(s)) == s
  {
    var d := LetterIndex(s[|s| - 1]);
    if |s| > 1 {
      var p := s[..|s| - 1];
      var m := ColumnToNumber(p);
      ColumnRoundTripInverse(p);
      NumberToColumnStep(m + 1, d);
      LastSplit(s);
    }
  }

  /** A non-empty sequence is its prefix followed by its last element. */
  lemma {:induction false} LastSplit<T>(s: seq<T>)
    requires |s| >= 1
    ensures s == s[..|s| - 1] + [s[|s| - 1]]
  {
  }

  /** The name of `q * 26 + d`, for `q >= 1`, is the name of `q - 1` followed by the letter of `d`. */
  lemma {:induction false} NumberToColumnStep(q: nat, d: nat)
    requires q >= 1 && d < 26
    ensures NumberToColumn(q * 26 + d) == NumberToColumn(q - 1) + [Letter(d)]
  {
    var n := q * 26 + d;
    assert n / 26 == q && n % 26 == d;
  }

  /** Different numbers get different column names. */
  lemma {:induction false} NumberToColumnInjective(a: nat, b: nat)
    requires NumberToColumn(a) == NumberToColumn(b)
    ensures a == b
  {
    ColumnRoundTrip(a);
    ColumnRoundTrip(b);
  }

  /** A larger number never gets a shorter name. */
  lemma {:induction false} ColumnLengthMonotone(a: nat, b: nat)
    requires a <= b
    ensures |NumberToColumn(a)| <= |NumberToColumn(b)|
  {
    if a >= 26 {
      ColumnLengthMonotone(a / 26 - 1, b / 26 - 1);
    }
  }

  /** The boundary cases of bijective base 26. */
  lemma {:induction false} ColumnExamples()
    ensures NumberToColumn(0) == "A" && NumberToColumn(25) == "Z"
    ensures NumberToColumn(26) == "AA" && NumberToColumn(701) == "ZZ"
    ensures NumberToColumn(702) == "AAA"
  {
    assert NumberToColumn(0) == "A";
    assert NumberToColumn(25) == "Z";
    assert NumberToColumn(26) == NumberToColumn(0) + "A";
    assert NumberToColumn(701) == NumberToColumn(25) + "Z";
    assert NumberToColumn(702) == NumberToColumn(26) + "A";
  }

  // ---------------------------------------------------------------------
  // getIdPageWithFbUrl
  // ---------------------------------------------------------------------

  /** The first index of `c` in `s`, or `|s|` when `c` does not occur. */
  function IndexOf(s: string, c: char): (i: nat)
    ensures i <= |s|
    ensures i < |s| ==> s[i] == c
  {
    if s == [] then 0 else if s[0] == c then 0 else 1 + IndexOf(s[1..], c)
  }

  /** IndexOf reaches the end exactly when `c` does not occur. */
  lemma {:induction false} IndexOfAbsent(s: string, c: char)
    ensures IndexOf(s, c) == |s| <==> c !in s
  {
    if s != [] && s[0] != c {
      IndexOfAbsent(s[1..], c);
      assert s == [s[0]] + s[1..];
    }
  }

  /** No `c` occurs before IndexOf(s, c). */
  lemma {:induction false} IndexOfFirst(s: string, c: char, j: nat)
    requires j < IndexOf(s, c)
    ensures s[j] != c
  {
    if j > 0 {
      IndexOfFirst(s[1..], c, j - 1);
    }
  }

  /** `parts.join(sep)`. */
  function Join(parts: seq<string>, sep: char): string
    requires |parts| >= 1
  {
    if |parts| == 1 then parts[0] else parts[0] + [sep] + Join(parts[1..], sep)
  }

  /**
   * `p` is what follows the last `sep` of `s` (all of `s` when `sep` does
   * not occur): a suffix of `s` free of `sep`, preceded by `sep` unless it
   * is the whole of `s`.
   */
  predicate IsLastSegment(s: string, sep: char, p: string) {
    && sep !in p
    && |p| <= |s|
    && s[|s| - |p|..] == p
    && (|p| == |s| || s[|s| - |p| - 1] == sep)
  }

  /** There is only one segment after the last separator. */
  lemma {:induction false} LastSegmentUnique(s: string, sep: char, p: string, q: string)
    requires IsLastSegment(s, sep, p) && IsLastSegment(s, sep, q)
    ensures p == q
  {
  }

  /** `s.split(sep)`: the pieces between separators, none of which holds one. */
  function Split(s: string, sep: char): (parts: seq<string>)
    ensures |parts| >= 1
    decreases |s|
  {
    var i := IndexOf(s, sep);
    if i == |s| then [s] else [s[..i]] + Split(s[i + 1..], sep)
  }

  /** Joining the pieces of a split with the separator gives back the string. */
  lemma {:induction false} SplitJoin(s: string, sep: char)
    ensures Join(Split(s, sep), sep) == s
    decreases |s|
  {
    var i := IndexOf(s, sep);
    if i < |s| {
      var rest := Split(s[i + 1..], sep);
      SplitJoin(s[i + 1..], sep);
      JoinCons(s[..i], rest, sep);
      assert s == s[..i] + [sep] + s[i + 1..];
    } else {
      assert Split(s, sep) == [s];
    }
  }

  /** Joining a piece followed by further pieces puts the separator between them. */
  lemma {:induction false} JoinCons(p: string, rest: seq<string>, sep: char)
    requires |rest| >= 1
    ensures Join([p] + rest, sep) == p + [sep] + Join(rest, sep)
  {
    assert ([p] + rest)[1..] == rest;
  }

  /** The last segment after a separator is also the last segment of the whole string. */
  lemma {:induction false} LastSegmentExtend(s: string, sep: char, i: nat, p: string)
    requires i < |s| && s[i] == sep && IsLastSegment(s[i + 1..], sep, p)
    ensures IsLastSegment(s, sep, p)
  {
    var t := s[i + 1..];
    assert s[|s| - |p|..] == t[|t| - |p|..];
    if |p| == |t| {
      assert s[|s| - |p| - 1] == s[i];
    } else {
      assert s[|s| - |p| - 1] == t[|t| - |p| - 1];
    }
  }

  /** Past the first separator, a split ends as the split of the rest does. */
  lemma {:induction false} SplitLastOfRest(s: string, sep: char)
    requires IndexOf(s, sep) < |s|
    ensures var parts, rest := Split(s, sep), Split(s[IndexOf(s, sep) + 1..], sep);
      parts[|parts| - 1] == rest[|rest| - 1]
  {
  }

  /** The last piece of a split is the segment after the last separator. */
  lemma {:induction false} SplitLastIsLastSegment(s: string, sep: char)
    ensures var parts := Split(s, sep); IsLastSegment(s, sep, parts[|parts| - 1])
    decreases |s|
  {
    var i := IndexOf(s, sep);
    if i < |s| {
      var rest := Split(s[i + 1..], sep);
      SplitLastIsLastSegment(s[i + 1..], sep);
      SplitLastOfRest(s, sep);
      LastSegmentExtend(s, sep, i, rest[|rest| - 1]);
    } else {
      IndexOfAbsent(s, sep);
      LastSegmentWhole(s, sep);
    }
  }

  /** A string without the separator is its own last segment. */
  lemma {:induction false} LastSegmentWhole(s: string, sep: char)
    requires sep !in s
    ensures IsLastSegment(s, sep, s)
  {
    assert s[|s| - |s|..] == s;
  }

  /** `s.replace(c, '')` with a one-character pattern: drops the first `c` only. */
  function RemoveFirst(s: string, c: char): (r: string)
    ensures c !in s ==> r == s
    ensures |r| == if c in s then |s| - 1 else |s|
  {
    IndexOfAbsent(s, c);
    var i := IndexOf(s, c);
    if i < |s| then s[..i] + s[i + 1..] else s
  }

  /** When `s` holds a `c`, the result holds the characters of `s` less that one `c`. */
  lemma {:induction false} RemoveFirstContents(s: string, c: char)
    requires c in s
    ensures multiset(RemoveFirst(s, c)) + multiset{c} == multiset(s)
  {
    var i := IndexOf(s, c);
    IndexOfAbsent(s, c);
    var a, b := s[..i], s[i + 1..];
    assert s == a + [c] + b;
  }

  /** Removing a character adds no other: what `s` lacks, the result lacks too. */
  lemma {:induction false} RemoveFirstAddsNothing(s: string, c: char, x: char)
    requires x !in s
    ensures x !in RemoveFirst(s, c)
  {
    if c in s {
      RemoveFirstContents(s, c);
      assert x !in multiset(s);
    }
  }

  /** `getIdPageWithFbUrl(url)`: '' for '', else the last '-' segment without its first '/'. */
  function GetIdPageWithFbUrl(url: string): (r: string)
    ensures url == "" ==> r == ""
    ensures '-' !in r
    ensures |r| <= |url|
  {
    if url != "" then
      var parts := Split(url, '-');
      SplitLastIsLastSegment(url, '-');
      RemoveFirstAddsNothing(parts[|parts| - 1], '/', '-');
      RemoveFirst(parts[|parts| - 1], '/')
    else
      ""
  }

  /**
   * For a non-empty url the result is the segment after the last '-' with
   * only its first '/' removed, one character shorter when it had a '/'.
   */
  lemma {:induction false} GetIdPageWithFbUrlSegment(url: string, seg: string)
    requires url != "" && IsLastSegment(url, '-', seg)
    ensures GetIdPageWithFbUrl(url) == RemoveFirst(seg, '/')
    ensures |GetIdPageWithFbUrl(url)| == if '/' in seg then |seg| - 1 else |seg|
  {
    var parts := Split(url, '-');
    var last := parts[|parts| - 1];
    SplitLastIsLastSegment(url, '-');
    assert IsLastSegment(url, '-', last);
    LastSegmentUnique(url, '-', seg, last);
    assert seg == last;
    assert GetIdPageWithFbUrl(url) == RemoveFirst(last, '/');
  }

  /** A url without '-' keeps all of itself except its first '/'. */
  lemma {:induction false} GetIdPageWithFbUrlNoDash(url: string)
    requires url != "" && '-' !in url
    ensures GetIdPageWithFbUrl(url) == RemoveFirst(url, '/')
  {
    assert url[|url| - |url|..] == url;
    GetIdPageWithFbUrlSegment(url, url);
  }
}

/** The JavaScript string operations the bot relies on, over `seq<char>`:
    `trim`, `startsWith`/`endsWith`, `indexOf` and first-occurrence `replace`,
    `split` on a one-character separator, `join`, and lower-casing.
 */
module Text {
  import opened Values

  /** JavaScript white space and line terminators: the characters
      `String.prototype.trim` removes and the pattern class `\s` matches. */
  predicate IsSpace(c: char) {
    || c == '\t' || c == '\n' || c == '\U{000B}' || c == '\U{000C}' || c == '\r'
    || c == ' ' || c == '\U{00A0}' || c == '\U{1680}'
    || ('\U{2000}' <= c <= '\U{200A}')
    || c == '\U{2028}' || c == '\U{2029}' || c == '\U{202F}' || c == '\U{205F}'
    || c == '\U{3000}' || c == '\U{FEFF}'
  }

  /** The pattern class `\w` without the `u` flag: ASCII letters, digits and `_`. */
  predicate IsWordChar(c: char) {
    ('a' <= c <= 'z') || ('A' <= c <= 'Z') || ('0' <= c <= '9') || c == '_'
  }

  predicate AllSpace(s: string) {
    forall k :: 0 <= k < |s| ==> IsSpace(s[k])
  }

  predicate StartsWith(s: string, p: string) {
    |p| <= |s| && s[..|p|] == p
  }

  predicate EndsWith(s: string, p: string) {
    |p| <= |s| && s[|s| - |p|..] == p
  }

  // ---------------------------------------------------------------------------
  // trim

  /** Number of white-space characters at the front of `s`. */
  function LeadingSpaces(s: string): (n: nat)
    ensures n <= |s|
    ensures forall k :: 0 <= k < n ==> IsSpace(s[k])
    ensures n < |s| ==> !IsSpace(s[n])
  {
    if |s| == 0 || !IsSpace(s[0]) then 0
    else 1 + LeadingSpaces(s[1..])
  }

  /** Number of white-space characters at the end of `s`. */
  function TrailingSpaces(s: string): (n: nat)
    ensures n <= |s|
    ensures forall k :: |s| - n <= k < |s| ==> IsSpace(s[k])
    ensures n < |s| ==> !IsSpace(s[|s| - 1 - n])
  {
    if |s| == 0 || !IsSpace(s[|s| - 1]) then 0
    else 1 + TrailingSpaces(s[..|s| - 1])
  }

  /** `String.prototype.trim`: `s` with its leading and trailing white space removed.
      The result is the slice of `s` that starts after the leading white space,
      everything after it is white space, and it neither starts nor ends with white space. */
  function Trim(s: string): (r: string)
    ensures LeadingSpaces(s) + |r| <= |s|
    ensures r == s[LeadingSpaces(s)..LeadingSpaces(s) + |r|]
    ensures AllSpace(s[LeadingSpaces(s) + |r|..])
    ensures r == "" || (!IsSpace(r[0]) && !IsSpace(r[|r| - 1]))
  {
    var a := LeadingSpaces(s);
    if a == |s| then ""
    else
      var b := |s| - TrailingSpaces(s);
      assert !IsSpace(s[a]);
      s[a..b]
  }

  /** A string that neither starts nor ends with white space is its own trim. */
  lemma TrimFixpoint(s: string)
    requires s == "" || (!IsSpace(s[0]) && !IsSpace(s[|s| - 1]))
    ensures Trim(s) == s
  {
    assert LeadingSpaces(s) == 0;
    if s != "" {
      assert TrailingSpaces(s) == 0;
    }
  }

  /** Trimming twice is trimming once. */
  lemma TrimIdempotent(s: string)
    ensures Trim(Trim(s)) == Trim(s)
  {
    TrimFixpoint(Trim(s));
  }

  /** Trimming only removes characters: a character absent from `s` is absent from its trim. */
  lemma TrimKeepsAbsence(s: string, c: char)
    requires c !in s
    ensures c !in Trim(s)
  {
    var r := Trim(s);
    var a := LeadingSpaces(s);
    forall k | 0 <= k < |r|
      ensures r[k] != c
    {
      assert r[k] == s[a + k];
    }
  }

  // ---------------------------------------------------------------------------
  // indexOf and first-occurrence replace

  predicate OccursAt(s: string, p: string, k: nat) {
    k + |p| <= |s| && s[k..k + |p|] == p
  }

  /** The first position at or after `from` where `p` occurs in `s`. */
  function IndexFrom(s: string, p: string, from: nat): (r: Option<nat>)
    ensures r.Some? ==> from <= r.value && OccursAt(s, p, r.value)
    ensures r.Some? ==> forall j :: from <= j < r.value ==> !OccursAt(s, p, j)
    ensures r.None? ==> forall j :: from <= j ==> !OccursAt(s, p, j)
    decreases |s| - from
  {
    if from + |p| > |s| then None
    else if s[from..from + |p|] == p then Some(from)
    else IndexFrom(s, p, from + 1)
  }

  /** `s.indexOf(p)`, with `None` for `-1`. */
  function IndexOf(s: string, p: string): Option<nat> {
    IndexFrom(s, p, 0)
  }

  /** `s.replace(p, "")` for a plain-string pattern: removes the first occurrence of `p`. */
  function RemoveFirst(s: string, p: string): (r: string)
    ensures (forall j :: !OccursAt(s, p, j)) ==> r == s
    ensures (exists j :: OccursAt(s, p, j)) ==> |r| + |p| == |s|
    ensures (exists j :: OccursAt(s, p, j)) ==>
      exists k: nat :: OccursAt(s, p, k) && (forall j :: 0 <= j < k ==> !OccursAt(s, p, j))
        && r == s[..k] + s[k + |p|..]
    ensures forall k: nat ::
      (OccursAt(s, p, k) && (forall j :: 0 <= j < k ==> !OccursAt(s, p, j))
       ==> r == s[..k] + s[k + |p|..])
    ensures |r| <= |s|
  {
    match IndexOf(s, p)
    case None => s
    case Some(k) => s[..k] + s[k + |p|..]
  }

  /** When `s` starts with `p`, the first occurrence is the leading one. */
  lemma RemoveFirstOfPrefix(s: string, p: string)
    requires StartsWith(s, p)
    ensures RemoveFirst(s, p) == s[|p|..]
  {
    assert OccursAt(s, p, 0);
  }

  /** A pattern whose first character is absent from `s` occurs nowhere in it. */
  lemma NoOccurrence(s: string, p: string)
    requires |p| > 0 && p[0] !in s
    ensures forall j :: !OccursAt(s, p, j)
  {
  }

  // ---------------------------------------------------------------------------
  // split and join

  /** The number of times `c` occurs in `s`. */
  function Occurrences(s: string, c: char): nat {
    if |s| == 0 then 0 else (if s[0] == c then 1 else 0) + Occurrences(s[1..], c)
  }

  /** `parts.join(sep)`. */
  function Join(parts: seq<string>, sep: string): string {
    if |parts| == 0 then ""
    else if |parts| == 1 then parts[0]
    else parts[0] + sep + Join(parts[1..], sep)
  }

  /** `s.split(c)` for a one-character separator: the pieces between the
      occurrences of `c`. There is always at least one piece, one more than
      the occurrences of `c`, no piece contains `c`, and joining the pieces
      with `c` gives back `s`. */
  function Split(s: string, c: char): (parts: seq<string>)
    ensures |parts| == Occurrences(s, c) + 1
    ensures forall i :: 0 <= i < |parts| ==> c !in parts[i]
    ensures Join(parts, [c]) == s
  {
    if |s| == 0 then [""]
    else
      var rest := Split(s[1..], c);
      assert s == [s[0]] + s[1..];
      if s[0] == c then
        JoinAfterEmpty(rest, c);
        [""] + rest
      else
        JoinExtendFirst(s[0], rest, c);
        [[s[0]] + rest[0]] + rest[1..]
  }

  lemma JoinAfterEmpty(rest: seq<string>, c: char)
    requires |rest| >= 1
    ensures Join([""] + rest, [c]) == [c] + Join(rest, [c])
  {
    assert ([""] + rest)[1..] == rest;
  }

  lemma JoinExtendFirst(x: char, rest: seq<string>, c: char)
    requires |rest| >= 1
    ensures Join([[x] + rest[0]] + rest[1..], [c]) == [x] + Join(rest, [c])
  {
    if |rest| == 1 {
      assert [[x] + rest[0]] + rest[1..] == [[x] + rest[0]];
    } else {
      JoinExtendFirstLong(x, rest, c);
    }
  }

  lemma JoinExtendFirstLong(x: char, rest: seq<string>, c: char)
    requires |rest| >= 2
    ensures Join([[x] + rest[0]] + rest[1..], [c]) == [x] + Join(rest, [c])
  {
    var parts := [[x] + rest[0]] + rest[1..];
    assert parts[1..] == rest[1..];
    var tail := Join(rest[1..], [c]);
    assert Join(parts, [c]) == ([x] + rest[0]) + [c] + tail;
  }

  /** A string without the separator splits into itself alone. */
  lemma {:induction false} SplitWithout(s: string, c: char)
    requires c !in s
    ensures Split(s, c) == [s]
  {
    if |s| > 0 {
      SplitWithout(s[1..], c);
    }
  }

  /** Splitting `x + [c] + t` where `x` has no `c` yields `x` followed by the pieces of `t`. */
  lemma {:induction false} SplitAfterPiece(x: string, c: char, t: string)
    requires c !in x
    ensures Split(x + [c] + t, c) == [x] + Split(t, c)
  {
    var s := x + [c] + t;
    if |x| == 0 {
      assert s[1..] == t;
    } else {
      assert s[1..] == x[1..] + [c] + t;
      SplitAfterPiece(x[1..], c, t);
      assert [x[0]] + x[1..] == x;
    }
  }

  /** Round trip: pieces free of the separator, joined and split again, come back unchanged. */
  lemma {:induction false} SplitJoin(parts: seq<string>, c: char)
    requires |parts| >= 1
    requires forall i :: 0 <= i < |parts| ==> c !in parts[i]
    ensures Split(Join(parts, [c]), c) == parts
  {
    if |parts| == 1 {
      SplitWithout(parts[0], c);
    } else {
      SplitJoin(parts[1..], c);
      SplitAfterPiece(parts[0], c, Join(parts[1..], [c]));
      assert [parts[0]] + parts[1..] == parts;
    }
  }

  /** The first piece of a join starts it, and is followed by the separator when more pieces follow. */
  lemma {:induction false} JoinFirst(parts: seq<string>, c: char)
    requires |parts| >= 1
    ensures StartsWith(Join(parts, [c]), parts[0])
    ensures |parts| >= 2 ==> |Join(parts, [c])| > |parts[0]| && Join(parts, [c])[|parts[0]|] == c
  {
    if |parts| >= 2 {
      var j := Join(parts, [c]);
      assert j == parts[0] + [c] + Join(parts[1..], [c]);
      assert j[..|parts[0]|] == parts[0];
    }
  }

  /** The last piece of a join ends it, and is preceded by the separator when more pieces precede it. */
  lemma {:induction false} JoinLast(parts: seq<string>, c: char)
    requires |parts| >= 1
    ensures EndsWith(Join(parts, [c]), parts[|parts| - 1])
    ensures |parts| >= 2 ==>
      var j := Join(parts, [c]);
      |j| > |parts[|parts| - 1]| && j[|j| - |parts[|parts| - 1]| - 1] == c
  {
    if |parts| >= 2 {
      var tail := parts[1..];
      var last := parts[|parts| - 1];
      JoinLast(tail, c);
      var jt := Join(tail, [c]);
      var j := Join(parts, [c]);
      assert j == (parts[0] + [c]) + jt;
      assert tail[|tail| - 1] == last;
      EndsWithAppend(parts[0] + [c], jt);
      SuffixOfSuffix(j, jt, last);
      if |tail| == 1 {
        assert jt == last;
        assert j[|j| - |last| - 1] == c;
      }
    }
  }

  lemma EndsWithAppend(a: string, b: string)
    ensures EndsWith(a + b, b)
  {
    assert (a + b)[|a|..] == b;
  }

  /** `s.split(c)[0]`: the text before the first `c`, or all of `s` if there is none. */
  function FirstPiece(s: string, c: char): (r: string)
    ensures StartsWith(s, r) && c !in r
    ensures |r| == |s| || s[|r|] == c
  {
    var parts := Split(s, c);
    JoinFirst(parts, c);
    parts[0]
  }

  /** A suffix of a suffix is a suffix, and the character before it is the same in both. */
  lemma SuffixOfSuffix(s: string, t: string, r: string)
    requires EndsWith(s, t) && EndsWith(t, r)
    ensures EndsWith(s, r)
    ensures |r| < |t| ==> s[|s| - |r| - 1] == t[|t| - |r| - 1]
  {
    assert forall k :: 0 <= k < |t| ==> t[k] == s[|s| - |t| + k];
    assert s[|s| - |r|..] == t[|t| - |r|..];
  }

  /** `s.split(c).pop()`: the text after the last `c`, or all of `s` if there is none. */
  function LastPiece(s: string, c: char): (r: string)
    ensures EndsWith(s, r) && c !in r
    ensures |r| == |s| || s[|s| - |r| - 1] == c
  {
    var parts := Split(s, c);
    JoinLast(parts, c);
    parts[|parts| - 1]
  }

  // ---------------------------------------------------------------------------
  // lower-casing

  /** Lower-cases an ASCII letter and leaves every other character alone. */
  function LowerChar(c: char): char {
    if 'A' <= c <= 'Z' then (c as int + 32) as char else c
  }

  /** `toLowerCase` on ASCII letters; other characters are left unchanged. */
  function ToLower(s: string): (r: string)
    ensures |r| == |s|
    ensures forall i :: 0 <= i < |s| ==> r[i] == LowerChar(s[i])
    ensures forall i :: 0 <= i < |r| ==> !('A' <= r[i] <= 'Z')
  {
    seq(|s|, i requires 0 <= i < |s| => LowerChar(s[i]))
  }

  /** Lower-casing introduces no character other than lower-case letters. */
  lemma ToLowerKeepsAbsence(s: string, c: char)
    requires c !in s && !('a' <= c <= 'z')
    ensures c !in ToLower(s)
  {
    var r := ToLower(s);
    forall k | 0 <= k < |r|
      ensures r[k] != c
    {
      assert r[k] == LowerChar(s[k]);
    }
  }

  /** A string with no upper-case ASCII letter is its own lower-case form. */
  lemma ToLowerFixpoint(s: string)
    requires forall i :: 0 <= i < |s| ==> !('A' <= s[i] <= 'Z')
    ensures ToLower(s) == s
  {
  }

  /** Lower-casing a second time changes nothing. */
  lemma ToLowerIdempotent(s: string)
    ensures ToLower(ToLower(s)) == ToLower(s)
  {
  }

  /** Lower-casing commutes with taking a suffix. */
  lemma ToLowerSuffix(s: string, n: nat)
    requires n <= |s|
    ensures ToLower(s)[|s| - n..] == ToLower(s[|s| - n..])
  {
  }

  /** A case-insensitive `endsWith` against a lower-case suffix. */
  predicate EndsWithIgnoringCase(s: string, suffix: string) {
    EndsWith(ToLower(s), suffix)
  }

  // ---------------------------------------------------------------------------
  // decimal rendering of counts, as in a template literal

  function DigitChar(d: nat): char
    requires d < 10
  {
    "0123456789"[d]
  }

  /** The number a string of decimal digits denotes, most significant digit first. */
  function DecimalValue(s: string): nat
    requires forall i :: 0 <= i < |s| ==> '0' <= s[i] <= '9'
  {
    if s == "" then 0
    else 10 * DecimalValue(s[..|s| - 1]) + (s[|s| - 1] as int - '0' as int)
  }

  /** The decimal digits of `n`, without leading zeros; read back as a number they denote `n`. */
  function NatToString(n: nat): (r: string)
    ensures |r| >= 1
    ensures forall i :: 0 <= i < |r| ==> '0' <= r[i] <= '9'
    ensures |r| > 1 ==> r[0] != '0'
    ensures DecimalValue(r) == n
    decreases n
  {
    if n < 10 then
      DigitValue(n);
      [DigitChar(n)]
    else
      var front := NatToString(n / 10);
      var r := front + [DigitChar(n % 10)];
      assert r[..|r| - 1] == front;
      DigitValue(n % 10);
      r
  }

  lemma DigitValue(d: nat)
    requires d < 10
    ensures DigitChar(d) as int - '0' as int == d
  {
  }
}

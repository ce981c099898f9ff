/**
 * The few JavaScript string operations the application relies on, over `string` (= seq<char>):
 * `includes`, `indexOf`, `split` with a string separator, `join`, `trim`, `toLowerCase`,
 * the relational operators on strings, and `String(n)` for integers.
 */
module Text {

  /** `pat` occurs in `s` starting at index `i`. */
  predicate OccursAt(s: string, pat: string, i: int)
  {
    0 <= i && i + |pat| <= |s| && s[i..i + |pat|] == pat
  }

  /** `s.includes(pat)` */
  predicate Contains(s: string, pat: string)
  {
    exists i | 0 <= i <= |s| - |pat| :: OccursAt(s, pat, i)
  }

  /** A slice of a string that does not contain `pat` does not contain it either. */
  lemma SliceLacks(s: string, pat: string, a: nat, b: nat)
    requires a <= b <= |s|
    requires !Contains(s, pat)
    ensures !Contains(s[a..b], pat)
  {
    if Contains(s[a..b], pat) {
      var i :| 0 <= i <= |s[a..b]| - |pat| && OccursAt(s[a..b], pat, i);
      assert s[a + i..a + i + |pat|] == pat by {
        forall k | 0 <= k < |pat| ensures s[a + i + k] == pat[k] {
          assert s[a..b][i..i + |pat|][k] == pat[k];
        }
      }
      assert OccursAt(s, pat, a + i);
    }
  }

  /** A prefix that ends before the first occurrence of `pat` does not contain `pat`. */
  lemma PrefixLacks(s: string, pat: string, n: nat)
    requires pat != ""
    requires n <= |s|
    requires forall j :: 0 <= j < n ==> !OccursAt(s, pat, j)
    ensures !Contains(s[..n], pat)
  {
    forall i | 0 <= i <= n - |pat| ensures !OccursAt(s[..n], pat, i) {
      assert s[..n][i..i + |pat|] == s[i..i + |pat|];
      assert !OccursAt(s, pat, i);
    }
  }

  /** `s.indexOf(pat, from)`, with -1 for "not found". */
  function IndexFrom(s: string, pat: string, from: nat): (r: int)
    ensures r == -1 || (from <= r && OccursAt(s, pat, r))
    ensures forall j :: from <= j && (r == -1 || j < r) ==> !OccursAt(s, pat, j)
    decreases |s| - from
  {
    if from + |pat| > |s| then -1
    else if s[from..from + |pat|] == pat then from
    else IndexFrom(s, pat, from + 1)
  }

  /** `parts.join(sep)` */
  function Join(parts: seq<string>, sep: string): string
  {
    if |parts| == 0 then ""
    else if |parts| == 1 then parts[0]
    else parts[0] + sep + Join(parts[1..], sep)
  }

  /** `s.split(sep)` for a non-empty string separator: cut at every occurrence, left to right. */
  function Split(s: string, sep: string): (parts: seq<string>)
    requires sep != ""
    ensures |parts| >= 1
    ensures Join(parts, sep) == s
    ensures forall k :: 0 <= k < |parts| ==> !Contains(parts[k], sep)
    ensures |parts| == 1 <==> !Contains(s, sep)
    decreases |s|
  {
    var i := IndexFrom(s, sep, 0);
    if i < 0 then
      assert !Contains(s, sep);
      [s]
    else
      PrefixLacks(s, sep, i);
      assert s == s[..i] + sep + s[i + |sep|..];
      assert Contains(s, sep) by { assert OccursAt(s, sep, i); }
      [s[..i]] + Split(s[i + |sep|..], sep)
  }

  /** With a one-character separator that no part contains, splitting undoes joining. */
  lemma {:induction false} SplitJoin(parts: seq<string>, sep: string)
    requires |sep| == 1
    requires |parts| >= 1
    requires forall k :: 0 <= k < |parts| ==> !Contains(parts[k], sep)
    ensures Split(Join(parts, sep), sep) == parts
  {
    if |parts| > 1 {
      var s := Join(parts, sep);
      var p := parts[0];
      assert s == p + sep + Join(parts[1..], sep);
      assert OccursAt(s, sep, |p|) by { assert s[|p|..|p| + 1] == sep; }
      forall j | 0 <= j < |p| ensures !OccursAt(s, sep, j) {
        if OccursAt(s, sep, j) {
          assert s[j..j + 1] == p[j..j + 1];
          assert OccursAt(p, sep, j);
        }
      }
      var i := IndexFrom(s, sep, 0);
      assert i == |p|;
      assert s[..i] == p;
      assert s[i + |sep|..] == Join(parts[1..], sep);
      SplitJoin(parts[1..], sep);
    } else {
      assert Join(parts, sep) == parts[0];
    }
  }

  /** Where `parts[k]` starts inside `Join(parts, sep)`. */
  function Offset(parts: seq<string>, sep: string, k: nat): nat
    requires k <= |parts|
  {
    if k == 0 then 0 else Offset(parts, sep, k - 1) + |parts[k - 1]| + |sep|
  }

  lemma {:induction false} OffsetTail(parts: seq<string>, sep: string, k: nat)
    requires 1 <= k <= |parts|
    ensures Offset(parts, sep, k) == |parts[0]| + |sep| + Offset(parts[1..], sep, k - 1)
  {
    if k > 1 {
      OffsetTail(parts, sep, k - 1);
      assert parts[1..][k - 2] == parts[k - 1];
    }
  }

  /** Offsets grow by at least the length of each part plus a separator. */
  lemma {:induction false} OffsetMonotone(parts: seq<string>, sep: string, i: nat, j: nat)
    requires i < j <= |parts|
    ensures Offset(parts, sep, i) + |parts[i]| + |sep| <= Offset(parts, sep, j)
  {
    if j > i + 1 {
      OffsetMonotone(parts, sep, i, j - 1);
    }
  }

  /** Joining two non-empty lists is joining each and putting a separator between them. */
  lemma {:induction false} JoinAppend(a: seq<string>, b: seq<string>, sep: string)
    requires a != [] && b != []
    ensures Join(a + b, sep) == Join(a, sep) + sep + Join(b, sep)
  {
    if |a| > 1 {
      assert (a + b)[1..] == a[1..] + b;
      JoinAppend(a[1..], b, sep);
    } else {
      assert (a + b)[1..] == b;
    }
  }

  /** The joined string is the part at `k` with the joined prefix and suffix around it. */
  lemma {:induction false} JoinAround(parts: seq<string>, sep: string, k: nat)
    requires k < |parts|
    ensures Join(parts, sep) == (if k == 0 then "" else Join(parts[..k], sep) + sep) + parts[k]
                                + (if k + 1 == |parts| then "" else sep + Join(parts[k + 1..], sep))
  {
    if k > 0 {
      assert parts == parts[..k] + parts[k..];
      JoinAppend(parts[..k], parts[k..], sep);
    }
    if k + 1 < |parts| {
      assert parts[k..][1..] == parts[k + 1..];
    }
  }

  /** A joined list is as long as the offset of its last part plus that part. */
  lemma {:induction false} JoinLength(parts: seq<string>, sep: string)
    requires parts != []
    ensures |Join(parts, sep)| == Offset(parts, sep, |parts| - 1) + |parts[|parts| - 1]|
  {
    if |parts| > 1 {
      JoinLength(parts[1..], sep);
      OffsetTail(parts, sep, |parts| - 1);
    }
  }

  /** Every part occurs in the joined string at its offset, followed by a separator unless it is last. */
  lemma JoinOccurs(parts: seq<string>, sep: string, k: nat)
    requires k < |parts|
    ensures OccursAt(Join(parts, sep), parts[k], Offset(parts, sep, k))
    ensures k + 1 < |parts| ==> OccursAt(Join(parts, sep), sep, Offset(parts, sep, k) + |parts[k]|)
  {
    var pre := if k == 0 then "" else Join(parts[..k], sep) + sep;
    var post := if k + 1 == |parts| then "" else sep + Join(parts[k + 1..], sep);
    JoinAround(parts, sep, k);
    assert |pre| == Offset(parts, sep, k) by {
      if k > 0 {
        JoinLength(parts[..k], sep);
        OffsetPrefix(parts, sep, k, k - 1);
        assert parts[..k][k - 1] == parts[k - 1];
      }
    }
    OccursAfter(pre, parts[k], post);
    if k + 1 < |parts| {
      assert pre + parts[k] + post == (pre + parts[k]) + sep + Join(parts[k + 1..], sep);
      OccursAfter(pre + parts[k], sep, Join(parts[k + 1..], sep));
    }
  }

  /** Offsets only depend on the parts before them. */
  lemma {:induction false} OffsetPrefix(parts: seq<string>, sep: string, n: nat, k: nat)
    requires k <= n <= |parts|
    ensures Offset(parts[..n], sep, k) == Offset(parts, sep, k)
  {
    if k > 0 {
      OffsetPrefix(parts, sep, n, k - 1);
    }
  }

  /** `pat` occurs right after `a`. */
  lemma OccursAfter(a: string, pat: string, rest: string)
    ensures OccursAt(a + pat + rest, pat, |a|)
  {
    assert (a + pat + rest)[|a|..|a| + |pat|] == pat;
  }

  /** `pat` occurs in `s` somewhere. */
  lemma OccursContains(s: string, pat: string, i: int)
    requires OccursAt(s, pat, i)
    ensures Contains(s, pat)
  {
  }

  /** A string contains what it starts with. */
  lemma ContainsStart(pat: string, rest: string)
    ensures Contains(pat + rest, pat)
  {
    assert (pat + rest)[0..|pat|] == pat;
    assert OccursAt(pat + rest, pat, 0);
  }

  /** Putting text in front keeps an occurrence. */
  lemma ContainsAfter(a: string, s: string, pat: string)
    requires Contains(s, pat)
    ensures Contains(a + s, pat)
  {
    var m :| 0 <= m <= |s| - |pat| && OccursAt(s, pat, m);
    assert (a + s)[|a| + m..|a| + m + |pat|] == s[m..m + |pat|];
    assert OccursAt(a + s, pat, |a| + m);
  }

  /** Every piece of a split of `s` lacks whatever `s` lacks. */
  lemma {:induction false} SplitPartLacks(s: string, sep: string, pat: string, k: nat)
    requires sep != "" && !Contains(s, pat) && k < |Split(s, sep)|
    ensures !Contains(Split(s, sep)[k], pat)
    decreases |s|
  {
    var i := IndexFrom(s, sep, 0);
    if i < 0 {
      assert Split(s, sep) == [s];
    } else {
      var rest := s[i + |sep|..];
      assert Split(s, sep) == [s[..i]] + Split(rest, sep);
      if k == 0 {
        SliceLacks(s, pat, 0, i);
        assert s[0..i] == s[..i];
      } else {
        var later := Split(rest, sep);
        assert |Split(s, sep)| == 1 + |later|;
        SliceLacks(s, pat, i + |sep|, |s|);
        assert s[i + |sep|..|s|] == rest;
        assert k - 1 < |later|;
        SplitPartLacks(rest, sep, pat, k - 1);
        assert Split(s, sep)[k] == Split(rest, sep)[k - 1];
      }
    }
  }

  /** A string none of whose characters starts `pat` does not contain it. */
  lemma LacksFirstChar(s: string, pat: string)
    requires pat != ""
    requires forall k :: 0 <= k < |s| ==> s[k] != pat[0]
    ensures !Contains(s, pat)
  {
    forall i | 0 <= i <= |s| - |pat| ensures !OccursAt(s, pat, i) {
      assert s[i..i + |pat|][0] == s[i];
    }
  }

  /**
   * Concatenating two strings that lack `pat` does not create it, provided the character on
   * one side of the seam is not in `pat`.
   */
  lemma ConcatLacks(x: string, y: string, pat: string)
    requires !Contains(x, pat) && !Contains(y, pat)
    requires (x != "" && x[|x| - 1] !in pat) || (y != "" && y[0] !in pat)
    ensures !Contains(x + y, pat)
  {
    var s := x + y;
    forall i | 0 <= i <= |s| - |pat| ensures !OccursAt(s, pat, i) {
      if i + |pat| <= |x| {
        assert s[i..i + |pat|] == x[i..i + |pat|];
        assert !OccursAt(x, pat, i);
      } else if i >= |x| {
        assert s[i..i + |pat|] == y[i - |x|..i - |x| + |pat|];
        assert !OccursAt(y, pat, i - |x|);
      } else {
        var w := s[i..i + |pat|];
        assert w[|x| - 1 - i] == x[|x| - 1];
        assert w[|x| - i] == y[0];
        assert w[|x| - 1 - i] in w && w[|x| - i] in w;
      }
    }
  }

  /**
   * Splitting `a + sep + b` where `a` lacks `sep` and the separator's first character does not
   * recur inside it gives `a` and then the pieces of `b`.
   */
  lemma SplitFirstOccurrence(a: string, sep: string, b: string)
    requires sep != "" && !Contains(a, sep)
    requires forall d :: 0 < d < |sep| ==> sep[d] != sep[0]
    ensures Split(a + sep + b, sep) == [a] + Split(b, sep)
  {
    var s := a + sep + b;
    assert OccursAt(s, sep, |a|) by { assert s[|a|..|a| + |sep|] == sep; }
    forall j | 0 <= j < |a| ensures !OccursAt(s, sep, j) {
      if j + |sep| <= |a| {
        assert s[j..j + |sep|] == a[j..j + |sep|];
        assert !OccursAt(a, sep, j);
      } else {
        var d := |a| - j;
        assert s[j..j + |sep|][d] == s[|a|] == sep[0] != sep[d];
      }
    }
    var i := IndexFrom(s, sep, 0);
    assert i == |a|;
    assert s[..i] == a;
    assert s[i + |sep|..] == b;
  }

  /** A string without the separator splits into itself alone. */
  lemma SplitLacking(s: string, sep: string)
    requires sep != "" && !Contains(s, sep)
    ensures Split(s, sep) == [s]
  {
    var parts := Split(s, sep);
    assert |parts| == 1;
    assert Join(parts, sep) == parts[0];
  }

  /** `rest` is empty or starts with `pat`: it is where the next occurrence, if any, begins. */
  predicate NextOrEnd(rest: string, pat: string)
  {
    rest == "" || (|pat| <= |rest| && rest[..|pat|] == pat)
  }

  /** Splitting at the first two occurrences of a separator whose first character does not recur. */
  lemma SplitAtFirst(pre: string, sep: string, mid: string, rest: string)
    requires sep != "" && forall d :: 0 < d < |sep| ==> sep[d] != sep[0]
    requires !Contains(pre, sep) && !Contains(mid, sep) && NextOrEnd(rest, sep)
    ensures |Split(pre + sep + mid + rest, sep)| >= 2
    ensures Split(pre + sep + mid + rest, sep)[0] == pre
    ensures Split(pre + sep + mid + rest, sep)[1] == mid
  {
    var tail := mid + rest;
    assert pre + sep + mid + rest == pre + sep + tail;
    SplitFirstOccurrence(pre, sep, tail);
    SplitHead(mid, sep, rest);
  }

  /** The first piece of `mid + rest` is `mid` when the next separator starts `rest`. */
  lemma SplitHead(mid: string, sep: string, rest: string)
    requires sep != "" && forall d :: 0 < d < |sep| ==> sep[d] != sep[0]
    requires !Contains(mid, sep) && NextOrEnd(rest, sep)
    ensures Split(mid + rest, sep)[0] == mid
  {
    if rest == "" {
      assert mid + rest == mid;
      SplitLacking(mid, sep);
    } else {
      var after := rest[|sep|..];
      assert mid + rest == mid + sep + after;
      SplitFirstOccurrence(mid, sep, after);
    }
  }

  /** The characters `String.prototype.trim` removes: ECMAScript WhiteSpace and LineTerminator. */
  predicate IsSpace(c: char)
  {
    c == '\t' || c == '\n' || c == '\U{000B}' || c == '\U{000C}' || c == '\r' || c == ' '
    || c == '\U{00A0}' || c == '\U{1680}' || ('\U{2000}' <= c <= '\U{200A}')
    || c == '\U{2028}' || c == '\U{2029}' || c == '\U{202F}' || c == '\U{205F}'
    || c == '\U{3000}' || c == '\U{FEFF}'
  }

  predicate IsBlank(s: string)
  {
    forall k :: 0 <= k < |s| ==> IsSpace(s[k])
  }

  /** Neither end of `s` is whitespace. */
  predicate IsTrimmed(s: string)
  {
    s == "" || (!IsSpace(s[0]) && !IsSpace(s[|s| - 1]))
  }

  /** Length of the leading whitespace run. */
  function LeadingSpace(s: string): (n: nat)
    ensures n <= |s|
    ensures forall k :: 0 <= k < n ==> IsSpace(s[k])
    ensures n < |s| ==> !IsSpace(s[n])
  {
    if |s| > 0 && IsSpace(s[0]) then 1 + LeadingSpace(s[1..]) else 0
  }

  /** Index just past the last non-whitespace character. */
  function ContentEnd(s: string): (n: nat)
    ensures n <= |s|
    ensures forall k :: n <= k < |s| ==> IsSpace(s[k])
    ensures n > 0 ==> !IsSpace(s[n - 1])
  {
    if |s| > 0 && IsSpace(s[|s| - 1]) then ContentEnd(s[..|s| - 1]) else |s|
  }

  /** `s.trim()` */
  function Trim(s: string): (r: string)
    ensures IsTrimmed(r)
    ensures r == "" <==> IsBlank(s)
    ensures |r| <= |s|
  {
    var e := ContentEnd(s);
    var b := LeadingSpace(s[..e]);
    assert b < e ==> s[b..e][0] == s[b] && s[b..e][e - b - 1] == s[e - 1];
    s[b..e]
  }

  /** Trailing white space alone is trimmed away. */
  lemma TrimTrailing(x: string, w: string)
    requires IsBlank(w) && x != "" && IsTrimmed(x)
    ensures Trim(x + w) == x
  {
    TrimExact("", x, w);
    assert "" + x + w == x + w;
  }

  /** Leading white space alone is trimmed away. */
  lemma TrimLeading(w: string, x: string)
    requires IsBlank(w) && x != "" && IsTrimmed(x)
    ensures Trim(w + x) == x
  {
    TrimExact(w, x, "");
    assert w + x + "" == w + x;
  }

  /** Whitespace around a trimmed, non-empty text is exactly what `trim` removes. */
  lemma TrimExact(w1: string, x: string, w2: string)
    requires IsBlank(w1) && IsBlank(w2) && x != "" && IsTrimmed(x)
    ensures Trim(w1 + x + w2) == x
  {
    var s := w1 + x + w2;
    var m := |w1| + |x|;
    assert s[m - 1] == x[|x| - 1];
    assert forall k :: m <= k < |s| ==> s[k] == w2[k - m];
    var e := ContentEnd(s);
    assert e == m;
    var t := s[..e];
    assert t == w1 + x;
    assert t[|w1|] == x[0];
    assert forall k :: 0 <= k < |w1| ==> t[k] == w1[k];
    var b := LeadingSpace(t);
    assert b == |w1|;
    assert s[b..e] == x;
  }

  /** Trimming never makes a string contain something it did not. */
  lemma TrimLacks(s: string, pat: string)
    requires !Contains(s, pat)
    ensures !Contains(Trim(s), pat)
  {
    var e := ContentEnd(s);
    var b := LeadingSpace(s[..e]);
    SliceLacks(s, pat, b, e);
  }

  /** The case mapping of `toLowerCase` for ASCII and Latin-1 letters (U+00C0..U+00DE except U+00D7). */
  function LowerChar(c: char): char
  {
    if 'A' <= c <= 'Z' || ('\U{00C0}' <= c <= '\U{00DE}' && c != '\U{00D7}') then
      (c as int + 32) as char
    else c
  }

  /** `s.toLowerCase()`, character by character. */
  function ToLower(s: string): (r: string)
    ensures |r| == |s|
    ensures forall k :: 0 <= k < |s| ==> r[k] == LowerChar(s[k])
  {
    seq(|s|, k requires 0 <= k < |s| => LowerChar(s[k]))
  }

  /** Lower-casing works character by character, so it distributes over concatenation. */
  lemma ToLowerAppend(a: string, b: string)
    ensures ToLower(a + b) == ToLower(a) + ToLower(b)
  {
    var l, r := ToLower(a + b), ToLower(a) + ToLower(b);
    forall k | 0 <= k < |l| ensures l[k] == r[k] {
      if k < |a| {
        assert (a + b)[k] == a[k];
      } else {
        assert (a + b)[k] == b[k - |a|];
      }
    }
  }

  /** `a < b` on JavaScript strings: lexicographic, a proper prefix comes first. */
  predicate Less(a: string, b: string)
  {
    if a == [] then b != []
    else if b == [] then false
    else if a[0] != b[0] then a[0] < b[0]
    else Less(a[1..], b[1..])
  }

  lemma {:induction false} LessIrreflexive(a: string)
    ensures !Less(a, a)
  {
    if a != [] {
      LessIrreflexive(a[1..]);
    }
  }

  lemma {:induction false} LessTransitive(a: string, b: string, c: string)
    requires Less(a, b) && Less(b, c)
    ensures Less(a, c)
  {
    if a != [] && b != [] && c != [] && a[0] == b[0] && b[0] == c[0] {
      LessTransitive(a[1..], b[1..], c[1..]);
    }
  }

  lemma {:induction false} LessTotal(a: string, b: string)
    ensures a == b || Less(a, b) || Less(b, a)
  {
    if a != [] && b != [] && a[0] == b[0] {
      LessTotal(a[1..], b[1..]);
      if a[1..] == b[1..] {
        assert a == [a[0]] + a[1..] && b == [b[0]] + b[1..];
      }
    }
  }

  lemma {:induction false} LessAsymmetric(a: string, b: string)
    requires Less(a, b)
    ensures !Less(b, a)
  {
    if a != [] && b != [] && a[0] == b[0] {
      LessAsymmetric(a[1..], b[1..]);
    }
  }

  /** The empty string precedes every other string. */
  lemma EmptyIsLeast(a: string)
    requires a != ""
    ensures Less("", a) && !Less(a, "")
  {
  }

  function DigitChar(d: nat): char
    requires d < 10
  {
    "0123456789"[d]
  }

  /** `String(n)` for a natural number. */
  function NatToString(n: nat): (r: string)
    ensures r != ""
    ensures forall k :: 0 <= k < |r| ==> '0' <= r[k] <= '9'
  {
    if n < 10 then [DigitChar(n)] else NatToString(n / 10) + [DigitChar(n % 10)]
  }

  /** `String(n)` for an integer. */
  function IntToString(n: int): (r: string)
    ensures r != ""
  {
    if n < 0 then "-" + NatToString(-n) else NatToString(n)
  }
}

/** Values and string operations shared by the bridge, engine and build-helper models:
  * an Option type, Kotlin's 32-bit `Int`, decimal rendering of integers, joining and
  * splitting on a separator, Kotlin's notion of blank text, `trim(c)` and `replace`.
  */
module Strings {

  /** A nullable Kotlin value (`T?`). */
  datatype Option<T> = None | Some(value: T) {
    /** Kotlin's `x ?: default`. */
    function GetOr(default: T): T {
      if Some? then value else default
    }
  }

  /** Kotlin's `Int`: a 32-bit two's complement integer. */
  newtype Int32 = x: int | -0x8000_0000 <= x < 0x8000_0000

  /** Kotlin's `Long.toInt()`: keeps the low 32 bits of `x`, read as two's complement. */
  function ToInt32(x: int): (r: Int32)
    ensures -0x8000_0000 <= x < 0x8000_0000 ==> r as int == x
    ensures (x - r as int) % 0x1_0000_0000 == 0
  {
    var low := (x + 0x8000_0000) % 0x1_0000_0000;
    assert x + 0x8000_0000 == (x + 0x8000_0000) / 0x1_0000_0000 * 0x1_0000_0000 + low;
    (low - 0x8000_0000) as Int32
  }

  // ---------------------------------------------------------------------------
  // Decimal rendering of integers (Kotlin string templates `"$n"`)
  // ---------------------------------------------------------------------------

  predicate IsDigit(c: char) {
    '0' <= c <= '9'
  }

  predicate AllDigits(s: string) {
    forall i :: 0 <= i < |s| ==> IsDigit(s[i])
  }

  function DigitChar(d: nat): (c: char)
    requires d < 10
    ensures IsDigit(c) && c as int - '0' as int == d
  {
    ('0' as int + d) as char
  }

  function DigitValue(c: char): (d: nat)
    requires IsDigit(c)
    ensures d < 10 && DigitChar(d) == c
  {
    c as int - '0' as int
  }

  /** The decimal text of `n`: only digits, and no leading zero unless `n` is 0. */
  function NatToString(n: nat): (s: string)
    ensures |s| >= 1 && AllDigits(s)
    ensures |s| > 1 ==> s[0] != '0'
  {
    if n < 10 then [DigitChar(n)] else NatToString(n / 10) + [DigitChar(n % 10)]
  }

  /** The value of a string of decimal digits. */
  function ParseDigits(s: string): nat
    requires AllDigits(s)
  {
    if s == [] then 0 else ParseDigits(s[..|s| - 1]) * 10 + DigitValue(s[|s| - 1])
  }

  lemma {:induction false} ParseNatToString(n: nat)
    ensures ParseDigits(NatToString(n)) == n
  {
    if n >= 10 {
      var s := NatToString(n);
      assert s[..|s| - 1] == NatToString(n / 10);
      ParseNatToString(n / 10);
    }
  }

  /** Kotlin's `Int.toString()`: a minus sign for negative values, then the digits. */
  function IntToString(i: int): (s: string)
  {
    if i < 0 then "-" + NatToString(-i) else NatToString(i)
  }

  /** The inverse of `IntToString`. */
  function ParseInt(s: string): int
    requires (|s| > 0 && s[0] == '-' && AllDigits(s[1..])) || AllDigits(s)
  {
    if |s| > 0 && s[0] == '-' then -(ParseDigits(s[1..]) as int) else ParseDigits(s)
  }

  lemma IntToStringShape(i: int)
    ensures |IntToString(i)| >= 1
    ensures forall k :: 1 <= k < |IntToString(i)| ==> IsDigit(IntToString(i)[k])
    ensures IsDigit(IntToString(i)[0]) || IntToString(i)[0] == '-'
  {
  }

  lemma ParseIntToString(i: int)
    ensures var s := IntToString(i);
      ((|s| > 0 && s[0] == '-' && AllDigits(s[1..])) || AllDigits(s)) && ParseInt(s) == i
  {
    var s := IntToString(i);
    if i < 0 {
      assert s[1..] == NatToString(-i);
      ParseNatToString(-i);
    } else {
      ParseNatToString(i);
    }
  }

  /** Distinct integers have distinct decimal texts. */
  lemma IntToStringInjective(a: int, b: int)
    requires IntToString(a) == IntToString(b)
    ensures a == b
  {
    ParseIntToString(a);
    ParseIntToString(b);
  }

  /** The number of digits at the start of `w`. */
  function LeadingDigits(w: string): (n: nat)
    ensures n <= |w|
  {
    if w == [] || !IsDigit(w[0]) then 0 else 1 + LeadingDigits(w[1..])
  }

  lemma {:induction false} LeadingDigitsOfDigits(d: string, s: string)
    requires AllDigits(d)
    requires s == [] || !IsDigit(s[0])
    ensures LeadingDigits(d + s) == |d|
  {
    if d != [] {
      assert (d + s)[1..] == d[1..] + s;
      LeadingDigitsOfDigits(d[1..], s);
    }
  }

  /** The decimal text of an integer cannot be extended by further digits: if two texts,
    * each followed by something that does not start with a digit, are equal, then the
    * integers and the continuations are equal. This is what makes a number embedded in
    * generated text recoverable. */
  lemma IntToStringPrefixFree(a: int, b: int, s: string, t: string)
    requires s == [] || !IsDigit(s[0])
    requires t == [] || !IsDigit(t[0])
    requires IntToString(a) + s == IntToString(b) + t
    ensures a == b && s == t
  {
    var x, y := IntToString(a), IntToString(b);
    IntToStringShape(a);
    IntToStringShape(b);
    assert (x + s)[1..] == x[1..] + s;
    assert (y + t)[1..] == y[1..] + t;
    LeadingDigitsOfDigits(x[1..], s);
    LeadingDigitsOfDigits(y[1..], t);
    assert |x| == 1 + LeadingDigits((x + s)[1..]) == 1 + LeadingDigits((y + t)[1..]) == |y|;
    assert x == (x + s)[..|x|] == (y + t)[..|y|] == y;
    IntToStringInjective(a, b);
  }

  lemma CancelPrefix(p: string, a: string, b: string)
    requires p + a == p + b
    ensures a == b
  {
    assert a == (p + a)[|p|..];
    assert b == (p + b)[|p|..];
  }

  lemma CancelSuffix(a: string, b: string, t: string)
    requires a + t == b + t
    ensures a == b
  {
    assert a == (a + t)[..|a|];
    assert b == (b + t)[..|b|];
  }

  // ---------------------------------------------------------------------------
  // Joining and splitting
  // ---------------------------------------------------------------------------

  /** Kotlin's `joinToString(sep)`. */
  function Join(sep: string, parts: seq<string>): string
  {
    if |parts| == 0 then ""
    else if |parts| == 1 then parts[0]
    else parts[0] + sep + Join(sep, parts[1..])
  }

  lemma {:induction false} JoinSnoc(sep: string, parts: seq<string>, last: string)
    requires |parts| >= 1
    ensures Join(sep, parts + [last]) == Join(sep, parts) + sep + last
  {
    if |parts| > 1 {
      assert (parts + [last])[1..] == parts[1..] + [last];
      JoinSnoc(sep, parts[1..], last);
    }
  }

  lemma JoinCons(sep: string, first: string, rest: seq<string>)
    requires |rest| >= 1
    ensures Join(sep, [first] + rest) == first + sep + Join(sep, rest)
  {
    assert ([first] + rest)[1..] == rest;
  }

  /** A joined text ends with its last part. */
  lemma {:induction false} JoinEndsWith(sep: string, parts: seq<string>)
    requires |parts| >= 1
    ensures |Join(sep, parts)| >= |parts[|parts| - 1]|
    ensures Join(sep, parts)[|Join(sep, parts)| - |parts[|parts| - 1]|..] == parts[|parts| - 1]
  {
    if |parts| > 1 {
      JoinEndsWith(sep, parts[1..]);
      var tail := Join(sep, parts[1..]);
      var last := parts[|parts| - 1];
      assert parts[1..][|parts| - 2] == last;
      assert (parts[0] + sep + tail)[|parts[0] + sep + tail| - |last|..] == tail[|tail| - |last|..];
    }
  }

  /** The index of the first occurrence of `c` in `s`. */
  function IndexOf(c: char, s: string): (i: nat)
    requires c in s
    ensures i < |s| && s[i] == c && c !in s[..i]
  {
    if s[0] == c then 0 else 1 + IndexOf(c, s[1..])
  }

  /** The pieces of `s` between occurrences of `c` (`s.split(c)` without a limit and
    * keeping empty pieces). */
  function Split(c: char, s: string): (parts: seq<string>)
    ensures |parts| >= 1
    decreases |s|
  {
    if c !in s then [s]
    else
      var i := IndexOf(c, s);
      [s[..i]] + Split(c, s[i + 1..])
  }

  lemma {:induction false} IndexOfFirst(c: char, p: string, rest: string)
    requires c !in p
    ensures IndexOf(c, p + [c] + rest) == |p|
  {
    if p != [] {
      assert (p + [c] + rest)[1..] == p[1..] + [c] + rest;
      IndexOfFirst(c, p[1..], rest);
    }
  }

  /** Splitting at the first separator. */
  lemma SplitCons(c: char, p: string, rest: string)
    requires c !in p
    ensures Split(c, p + [c] + rest) == [p] + Split(c, rest)
  {
    var s := p + [c] + rest;
    IndexOfFirst(c, p, rest);
    assert s[..|p|] == p;
    assert s[|p| + 1..] == rest;
  }

  /** Splitting undoes joining, as long as no part contains the separator. */
  lemma {:induction false} SplitJoin(c: char, parts: seq<string>)
    requires |parts| >= 1
    requires forall k :: 0 <= k < |parts| ==> c !in parts[k]
    ensures Split(c, Join([c], parts)) == parts
  {
    if |parts| > 1 {
      var rest := Join([c], parts[1..]);
      assert Join([c], parts) == parts[0] + [c] + rest;
      SplitCons(c, parts[0], rest);
      SplitJoin(c, parts[1..]);
      assert parts == [parts[0]] + parts[1..];
    }
  }

  // ---------------------------------------------------------------------------
  // Blank text, trimming, searching and replacing
  // ---------------------------------------------------------------------------

  /** Kotlin's `Char.isWhitespace()` on the JVM: Java's whitespace characters and the
    * Unicode space separators (including the no-break spaces), line and paragraph
    * separators. */
  predicate IsWhitespace(c: char) {
    || c == ' '
    || '\t' <= c <= '\r'
    || '\U{1C}' <= c <= '\U{1F}'
    || c == '\U{A0}' || c == '\U{1680}'
    || '\U{2000}' <= c <= '\U{200A}'
    || c == '\U{2028}' || c == '\U{2029}' || c == '\U{202F}' || c == '\U{205F}'
    || c == '\U{3000}'
  }

  /** The first components of the pairs, in order. */
  function PairKeys(pairs: seq<(string, string)>): (r: seq<string>)
    ensures |r| == |pairs| && forall i :: 0 <= i < |pairs| ==> r[i] == pairs[i].0
  {
    seq(|pairs|, i requires 0 <= i < |pairs| => pairs[i].0)
  }

  /** Kotlin's `isBlank()`: empty or only whitespace. */
  predicate IsBlank(s: string) {
    forall i :: 0 <= i < |s| ==> IsWhitespace(s[i])
  }

  /** The number of copies of `c` at the start of `s`. */
  function LeadingCount(s: string, c: char): (k: nat)
    ensures k <= |s|
    ensures k < |s| ==> s[k] != c
  {
    if s != [] && s[0] == c then 1 + LeadingCount(s[1..], c) else 0
  }

  /** The number of copies of `c` at the end of `s`. */
  function TrailingCount(s: string, c: char): (k: nat)
    ensures k <= |s|
    ensures k < |s| ==> s[|s| - k - 1] != c
  {
    if s != [] && s[|s| - 1] == c then 1 + TrailingCount(s[..|s| - 1], c) else 0
  }

  /** Kotlin's `trimStart(c)`. */
  function TrimStart(s: string, c: char): (r: string)
    ensures r == [] || r[0] != c
  {
    s[LeadingCount(s, c)..]
  }

  /** Kotlin's `trimEnd(c)`. */
  function TrimEnd(s: string, c: char): (r: string)
    ensures r == [] || r[|r| - 1] != c
  {
    s[..|s| - TrailingCount(s, c)]
  }

  /** Kotlin's `trim(c)`: removes every leading and every trailing `c`. */
  function Trim(s: string, c: char): string
  {
    TrimEnd(TrimStart(s, c), c)
  }

  /** The characters `LeadingCount` counts are all `c`. */
  lemma {:induction false} LeadingRun(s: string, c: char, k: int)
    requires 0 <= k < LeadingCount(s, c)
    ensures s[k] == c
  {
    if k > 0 {
      LeadingRun(s[1..], c, k - 1);
    }
  }

  /** The characters `TrailingCount` counts are all `c`. */
  lemma {:induction false} TrailingRun(s: string, c: char, k: int)
    requires |s| - TrailingCount(s, c) <= k < |s|
    ensures s[k] == c
  {
    if k < |s| - 1 {
      TrailingRun(s[..|s| - 1], c, k);
    }
  }

  /** `r` is the part `s[i..j]` of `s`, and every character around it is in `pad`. */
  ghost predicate PaddedSlice(s: string, r: string, i: int, j: int, pad: set<char>) {
    && 0 <= i <= j <= |s| && r == s[i..j]
    && (forall k :: 0 <= k < i ==> s[k] in pad)
    && (forall k :: j <= k < |s| ==> s[k] in pad)
  }

  /** A padded part of a padded part is a padded part of the whole. */
  lemma PaddedSliceNested(s: string, t: string, r: string, i1: int, j1: int, i2: int, j2: int,
                          outer: set<char>, inner: set<char>)
    requires PaddedSlice(s, t, i1, j1, outer) && PaddedSlice(t, r, i2, j2, inner)
    ensures PaddedSlice(s, r, i1 + i2, i1 + j2, outer + inner)
  {
    assert r == s[i1 + i2..i1 + j2] by {
      forall k | 0 <= k < |r| ensures r[k] == s[i1 + i2 + k] {
        assert r[k] == t[i2 + k];
      }
    }
    forall k | 0 <= k < i1 + i2 ensures s[k] in outer + inner {
      if k >= i1 {
        assert s[k] == t[k - i1];
      }
    }
    forall k | i1 + j2 <= k < |s| ensures s[k] in outer + inner {
      if k < j1 {
        assert s[k] == t[k - i1];
      }
    }
  }

  /** `trim(c)` keeps one contiguous part of the text and removes only copies of `c`
    * around it; with `TrimEnds`, the removed runs are the longest ones. */
  lemma TrimSlice(s: string, c: char)
    ensures exists i, j :: PaddedSlice(s, Trim(s, c), i, j, {c})
  {
    var i := LeadingCount(s, c);
    var u := s[i..];
    var t := TrailingCount(u, c);
    var j := i + |u| - t;
    assert Trim(s, c) == s[i..j];
    forall k | 0 <= k < i ensures s[k] in {c} {
      LeadingRun(s, c, k);
    }
    forall k | j <= k < |s| ensures s[k] in {c} {
      TrailingRun(u, c, k - i);
      assert u[k - i] == s[k];
    }
    assert PaddedSlice(s, Trim(s, c), i, j, {c});
  }

  /** Trimming a character is idempotent. */
  lemma TrimIdempotent(s: string, c: char)
    ensures Trim(Trim(s, c), c) == Trim(s, c)
  {
    var u := TrimStart(s, c);
    var t := TrimEnd(u, c);
    if t != [] {
      assert t[0] == u[0];
      assert LeadingCount(t, c) == 0;
      assert TrimStart(t, c) == t;
      assert TrailingCount(t, c) == 0;
    }
  }

  /** What `trim(c)` leaves neither starts nor ends with `c`. */
  lemma TrimEnds(s: string, c: char)
    ensures var r := Trim(s, c); r == [] || (r[0] != c && r[|r| - 1] != c)
  {
    var u := TrimStart(s, c);
    var r := TrimEnd(u, c);
    if r != [] {
      assert r[0] == u[0];
    }
  }

  /** Text that neither starts nor ends with `c` is left as it is by `trim(c)`. */
  lemma TrimUntouched(s: string, c: char)
    requires s == [] || (s[0] != c && s[|s| - 1] != c)
    ensures Trim(s, c) == s
  {
    assert LeadingCount(s, c) == 0;
    assert TrimStart(s, c) == s;
    assert TrailingCount(s, c) == 0;
  }

  /** `trim(c)` removes one `c` on each side of such text. */
  lemma TrimWrapped(s: string, c: char)
    requires s == [] || (s[0] != c && s[|s| - 1] != c)
    ensures Trim([c] + s + [c], c) == s
  {
    var w := [c] + s + [c];
    assert w[1..] == s + [c];
    if s == [] {
      assert LeadingCount(w[1..][1..], c) == 0;
      assert TrimStart(w, c) == [];
    } else {
      assert (s + [c])[0] == s[0];
      assert LeadingCount(w[1..], c) == 0;
      assert TrimStart(w, c) == s + [c];
      assert (s + [c])[..|s|] == s;
      assert TrailingCount(s, c) == 0;
      assert TrailingCount(s + [c], c) == 1;
    }
  }

  /** `sub` occurs in `s` at index `i`. */
  ghost predicate OccursAt(s: string, sub: string, i: int) {
    0 <= i && i + |sub| <= |s| && s[i..i + |sub|] == sub
  }

  /** Kotlin's `s.contains(sub)`. */
  function Contains(s: string, sub: string): bool
  {
    if sub <= s then true
    else if s == [] then false
    else Contains(s[1..], sub)
  }

  /** `Contains` holds exactly when `sub` occurs somewhere in `s`. */
  lemma {:induction false} ContainsIff(s: string, sub: string)
    ensures Contains(s, sub) <==> exists i :: OccursAt(s, sub, i)
  {
    if sub <= s {
      assert OccursAt(s, sub, 0);
    } else if s != [] {
      ContainsIff(s[1..], sub);
      if Contains(s[1..], sub) {
        var i :| OccursAt(s[1..], sub, i);
        assert s[i + 1..i + 1 + |sub|] == s[1..][i..i + |sub|];
        assert OccursAt(s, sub, i + 1);
      } else {
        forall i | OccursAt(s, sub, i) ensures OccursAt(s[1..], sub, i - 1) {
          assert i == 0 ==> sub <= s;
        }
      }
    }
  }

  /** Kotlin's `s.replace(pat, rep)`: every occurrence of `pat`, scanning left to right
    * without overlaps, is replaced by `rep`. */
  function ReplaceAll(s: string, pat: string, rep: string): string
    requires |pat| > 0
  {
    if s == [] then []
    else if pat <= s then rep + ReplaceAll(s[|pat|..], pat, rep)
    else [s[0]] + ReplaceAll(s[1..], pat, rep)
  }

  /** Replacing text that does not occur leaves the string as it was. */
  lemma {:induction false} ReplaceAllAbsent(s: string, pat: string, rep: string)
    requires |pat| > 0
    requires !Contains(s, pat)
    ensures ReplaceAll(s, pat, rep) == s
  {
    if s != [] {
      ReplaceAllAbsent(s[1..], pat, rep);
    }
  }

  /** `s.replace(" ", "")` (with any single character): every occurrence is gone and
    * every other character is kept, in order. */
  lemma {:induction false} ReplaceCharRemoves(s: string, c: char)
    ensures c !in ReplaceAll(s, [c], "")
    ensures ReplaceAll(s, [c], "") == RemoveChar(s, c)
  {
    if s != [] {
      ReplaceCharRemoves(s[1..], c);
      if s[0] == c {
        assert [c] <= s;
      } else {
        assert !([c] <= s);
      }
    }
  }

  /** The characters of `s` other than `c`, in order. */
  function RemoveChar(s: string, c: char): string
  {
    if s == [] then [] else (if s[0] == c then [] else [s[0]]) + RemoveChar(s[1..], c)
  }
}

/** The string operations of the Rust standard library that the compiler and the parser rely on. */
module Text {
  import opened Wrappers

  // ---------------------------------------------------------------- characters

  predicate IsDigit(c: char) {
    '0' <= c <= '9'
  }

  predicate IsLetter(c: char) {
    'a' <= c <= 'z' || 'A' <= c <= 'Z'
  }

  /** The Unicode `White_Space` property, as `str::trim` uses it. */
  predicate IsWhitespace(c: char) {
    || '\U{9}' <= c <= '\U{D}'
    || c in " \U{85}\U{A0}\U{1680}\U{2028}\U{2029}\U{202F}\U{205F}\U{3000}"
    || '\U{2000}' <= c <= '\U{200A}'
  }

  predicate AllDigits(s: string) {
    forall i | 0 <= i < |s| :: IsDigit(s[i])
  }

  /** ASCII lower case; the names it is compared with have no non-ASCII upper-case variant. */
  function ToLower(s: string): (r: string)
    ensures |r| == |s|
  {
    seq(|s|, i requires 0 <= i < |s| =>
      if 'A' <= s[i] <= 'Z' then (s[i] as int + 32) as char else s[i])
  }

  lemma Associative<T>(a: seq<T>, b: seq<T>, c: seq<T>)
    ensures a + b + c == a + (b + c)
  {
  }

  // ---------------------------------------------------------------- decimal numbers

  function Digit(d: nat): char
    requires d < 10
  {
    ('0' as int + d) as char
  }

  /** `n.to_string()` for a non-negative integer. */
  function Dec(n: nat): (s: string)
    ensures s != "" && AllDigits(s)
  {
    if n < 10 then [Digit(n)] else Dec(n / 10) + [Digit(n % 10)]
  }

  function DecValue(s: string): nat
    requires AllDigits(s)
  {
    if s == "" then 0 else DecValue(s[..|s| - 1]) * 10 + (s[|s| - 1] as int - '0' as int)
  }

  lemma {:induction false} DecRoundTrip(n: nat)
    ensures DecValue(Dec(n)) == n
  {
    if n >= 10 {
      DecRoundTrip(n / 10);
      assert Dec(n)[..|Dec(n)| - 1] == Dec(n / 10);
    }
  }

  /** No leading zeros. */
  lemma {:induction false} DecCanonical(n: nat)
    ensures Dec(n)[0] == '0' ==> Dec(n) == "0"
    ensures n > 0 ==> Dec(n)[0] != '0'
  {
    if n >= 10 {
      DecCanonical(n / 10);
    }
  }

  /** `v.to_string()` for an `i64`. */
  function IntText(v: int): string {
    if v < 0 then "-" + Dec(-v) else Dec(v)
  }

  predicate IsI64(v: int) {
    -0x8000_0000_0000_0000 <= v < 0x8000_0000_0000_0000
  }

  /** `s.parse::<i64>()`: an optional sign, at least one ASCII digit, and no overflow. */
  function ParseI64(s: string): (r: Option<int>)
    ensures r.Some? ==> IsI64(r.value)
  {
    var signed := s != "" && (s[0] == '-' || s[0] == '+');
    var digits := if signed then s[1..] else s;
    if digits == "" || !AllDigits(digits) then None
    else
      var v: int := if signed && s[0] == '-' then -(DecValue(digits) as int) else DecValue(digits);
      if IsI64(v) then Some(v) else None
  }

  /** The text of a number has a minus if it is negative, never a plus, and no leading zero. */
  lemma IntTextCanonical(v: int)
    ensures var digits := if v < 0 then IntText(v)[1..] else IntText(v);
      && digits != "" && AllDigits(digits) && (digits[0] == '0' ==> digits == "0")
      && (v < 0 ==> IntText(v) == "-" + digits)
  {
    DecCanonical(if v < 0 then -v else v);
    assert v < 0 ==> IntText(v)[1..] == Dec(-v);
  }

  /** A text parses exactly if it is digits after at most one sign, and its number fits. */
  lemma ParsesExactly(sign: string, digits: string)
    requires sign == "" || sign == "+" || sign == "-"
    requires digits != "" && AllDigits(digits)
    ensures ParseI64(sign + digits) ==
      var v: int := if sign == "-" then -(DecValue(digits) as int) else DecValue(digits);
      if -0x8000_0000_0000_0000 <= v <= 0x7FFF_FFFF_FFFF_FFFF then Some(v) else None
  {
    var s := sign + digits;
    assert IsDigit(digits[0]);
    if sign == "" {
      assert s == digits;
    } else {
      assert s[1..] == digits && s[0] == sign[0];
    }
  }

  lemma OnlyNumbersParse(s: string)
    requires ParseI64(s).Some?
    ensures exists sign: string, digits: string ::
      sign in ["", "+", "-"] && digits != "" && AllDigits(digits) && s == sign + digits
  {
    if s[0] == '-' {
      assert s == "-" + s[1..];
    } else if s[0] == '+' {
      assert s == "+" + s[1..];
    } else {
      assert s == "" + s;
    }
  }

  lemma I64RoundTrip(v: int)
    requires IsI64(v)
    ensures ParseI64(IntText(v)) == Some(v)
  {
    var d := Dec(if v < 0 then -v else v);
    DecRoundTrip(if v < 0 then -v else v);
    assert ("-" + d)[1..] == d;
    assert IsDigit(d[0]);
  }

  // ---------------------------------------------------------------- searching and splitting

  /** The position of the first `c`, or `|s|` when there is none. */
  function Find(s: string, c: char): (n: nat)
    ensures n <= |s|
    ensures n < |s| ==> s[n] == c
    ensures forall i | 0 <= i < n :: s[i] != c
  {
    if s == "" || s[0] == c then 0 else 1 + Find(s[1..], c)
  }

  lemma FindAt(a: string, c: char, b: string)
    requires c !in a
    ensures Find(a + [c] + b, c) == |a|
    ensures Find(a, c) == |a|
  {
    var s := a + [c] + b;
    assert s[|a|] == c;
    assert forall i | 0 <= i < |a| :: s[i] == a[i];
  }

  /** `s.split_once(c)`: the text before and after the first `c`. */
  function SplitOnce(s: string, c: char): (r: Option<(string, string)>)
    ensures r.None? <==> c !in s
    ensures r.Some? ==> s == r.value.0 + [c] + r.value.1 && c !in r.value.0
  {
    var n := Find(s, c);
    if n == |s| then None else Some((s[..n], s[n + 1..]))
  }

  lemma SplitOnceJoined(a: string, c: char, b: string)
    requires c !in a
    ensures SplitOnce(a + [c] + b, c) == Some((a, b))
  {
    FindAt(a, c, b);
    var s := a + [c] + b;
    assert s[..|a|] == a && s[|a| + 1..] == b;
  }

  /** `s.split(c)`: the fields between the separators, never empty. */
  function Split(s: string, c: char): (parts: seq<string>)
    ensures parts != []
    ensures forall p | p in parts :: c !in p
    decreases |s|
  {
    var n := Find(s, c);
    if n == |s| then [s] else [s[..n]] + Split(s[n + 1..], c)
  }

  /** `parts.join(sep)`. */
  function Join(parts: seq<string>, sep: string): string {
    if parts == [] then ""
    else if |parts| == 1 then parts[0]
    else parts[0] + sep + Join(parts[1..], sep)
  }

  lemma {:induction false} SplitJoin(parts: seq<string>, c: char)
    requires parts != [] && forall p | p in parts :: c !in p
    ensures Split(Join(parts, [c]), c) == parts
  {
    if |parts| == 1 {
      FindAt(parts[0], c, "");
    } else {
      var rest := Join(parts[1..], [c]);
      var s := parts[0] + [c] + rest;
      FindAt(parts[0], c, rest);
      assert s[..|parts[0]|] == parts[0] && s[|parts[0]| + 1..] == rest;
      SplitJoin(parts[1..], c);
    }
  }

  // ---------------------------------------------------------------- trimming

  function TrimStart(s: string): (r: string)
    ensures r == "" || !IsWhitespace(r[0])
    ensures forall c | c in r :: c in s
  {
    if s != "" && IsWhitespace(s[0]) then TrimStart(s[1..]) else s
  }

  function TrimEnd(s: string): (r: string)
    ensures r <= s && (r == "" || !IsWhitespace(r[|r| - 1]))
  {
    if s != "" && IsWhitespace(s[|s| - 1]) then TrimEnd(s[..|s| - 1]) else s
  }

  /** `s.trim()`. */
  function Trim(s: string): (r: string)
    ensures Trimmed(r)
    ensures forall c | c in r :: c in s
  {
    TrimEnd(TrimStart(s))
  }

  predicate AllWhitespace(s: string) {
    forall i | 0 <= i < |s| :: IsWhitespace(s[i])
  }

  lemma {:induction false} TrimStartPadded(left: string, s: string)
    requires AllWhitespace(left) && (s == "" || !IsWhitespace(s[0]))
    ensures TrimStart(left + s) == s
  {
    if left == "" {
      assert left + s == s;
    } else {
      assert (left + s)[1..] == left[1..] + s;
      TrimStartPadded(left[1..], s);
    }
  }

  lemma {:induction false} TrimEndPadded(s: string, right: string)
    requires AllWhitespace(right) && (s == "" || !IsWhitespace(s[|s| - 1]))
    ensures TrimEnd(s + right) == s
  {
    if right == "" {
      assert s + right == s;
    } else {
      var init := right[..|right| - 1];
      assert (s + right)[..|s + right| - 1] == s + init;
      TrimEndPadded(s, init);
    }
  }

  /** Trimming takes white space off both ends, all of it, and nothing else. */
  lemma TrimPadded(left: string, s: string, right: string)
    requires AllWhitespace(left) && AllWhitespace(right) && Trimmed(s)
    ensures Trim(left + s + right) == s
  {
    hide IsWhitespace;
    if s == "" {
      assert left + s + right == (left + right) + "";
      TrimStartPadded(left + right, "");
    } else {
      assert left + s + right == left + (s + right);
      TrimStartPadded(left, s + right);
      TrimEndPadded(s, right);
    }
  }

  /** The white space that `trim` takes off, by code point. */
  lemma WhitespaceCodes(c: char)
    ensures IsWhitespace(c) <==> c as int in {
      0x9, 0xA, 0xB, 0xC, 0xD, 0x20, 0x85, 0xA0, 0x1680, 0x2000, 0x2001, 0x2002, 0x2003, 0x2004, 0x2005, 0x2006,
      0x2007, 0x2008, 0x2009, 0x200A, 0x2028, 0x2029, 0x202F, 0x205F, 0x3000}
  {
  }

  predicate Trimmed(s: string) {
    s == "" || (!IsWhitespace(s[0]) && !IsWhitespace(s[|s| - 1]))
  }

  lemma TrimTrimmed(s: string)
    requires Trimmed(s)
    ensures Trim(s) == s
  {
  }

  // ---------------------------------------------------------------- replacing

  /** `s.replace(pat, by)`: every non-overlapping occurrence, from the left. */
  function Replace(s: string, pat: string, with: string): string
    requires pat != ""
    decreases |s|
  {
    if |s| < |pat| then s
    else if pat <= s then with + Replace(s[|pat|..], pat, with)
    else [s[0]] + Replace(s[1..], pat, with)
  }

  predicate OccursAt(s: string, pat: string, i: nat) {
    i + |pat| <= |s| && s[i..i + |pat|] == pat
  }

  ghost predicate FreeOf(s: string, pat: string) {
    forall i: nat :: !OccursAt(s, pat, i)
  }

  /** No character of `pat` after the first repeats the first, so occurrences never overlap. */
  predicate Marker(pat: string) {
    pat != "" && pat[0] !in pat[1..]
  }

  lemma {:induction false} ReplaceFree(s: string, pat: string, with: string)
    requires pat != "" && FreeOf(s, pat)
    ensures Replace(s, pat, with) == s
    decreases |s|
  {
    if |s| >= |pat| {
      assert !OccursAt(s, pat, 0);
      assert s[0..|pat|] == s[..|pat|];
      FreeOfTail(s, pat);
      ReplaceFree(s[1..], pat, with);
    }
  }

  lemma FreeOfTail(s: string, pat: string)
    requires s != "" && FreeOf(s, pat)
    ensures FreeOf(s[1..], pat)
  {
    forall i: nat ensures !OccursAt(s[1..], pat, i) {
      assert !OccursAt(s, pat, i + 1);
      assert i + 1 + |pat| <= |s| ==> s[1..][i..i + |pat|] == s[i + 1..i + 1 + |pat|];
    }
  }

  lemma NoEarlyMarker(a: string, pat: string, b: string)
    requires a != "" && Marker(pat) && FreeOf(a, pat)
    ensures !(pat <= a + pat + b)
  {
    var s := a + pat + b;
    assert !OccursAt(a, pat, 0);
    assert s[|a|] == pat[0];
    assert |a| < |pat| ==> pat[|a|] == pat[1..][|a| - 1] != pat[0];
    assert |a| >= |pat| ==> s[..|pat|] == a[0..|pat|];
  }

  /** The first marker is replaced and the search goes on after it. */
  lemma {:induction false} ReplaceFirst(a: string, pat: string, b: string, with: string)
    requires Marker(pat) && FreeOf(a, pat)
    ensures Replace(a + pat + b, pat, with) == a + with + Replace(b, pat, with)
    decreases |a|
  {
    var s := a + pat + b;
    if a == "" {
      assert s == pat + b && s[|pat|..] == b;
    } else {
      NoEarlyMarker(a, pat, b);
      FreeOfTail(a, pat);
      ReplaceFirst(a[1..], pat, b, with);
      assert s[1..] == a[1..] + pat + b;
      assert Replace(s, pat, with) == [s[0]] + Replace(s[1..], pat, with);
      assert [a[0]] + (a[1..] + with + Replace(b, pat, with)) == a + with + Replace(b, pat, with);
    }
  }

  /** Two marker-free texts stay marker-free side by side when the seam is not inside a marker. */
  lemma FreeOfConcat(a: string, b: string, pat: string)
    requires pat != "" && FreeOf(a, pat) && FreeOf(b, pat)
    requires a == "" || b == "" || a[|a| - 1] !in pat || b[0] !in pat
    ensures FreeOf(a + b, pat)
  {
    var s := a + b;
    forall i: nat ensures !OccursAt(s, pat, i) {
      if i + |pat| <= |a| {
        assert !OccursAt(a, pat, i);
        assert s[i..i + |pat|] == a[i..i + |pat|];
      } else if |a| <= i {
        assert !OccursAt(b, pat, i - |a|);
        assert i + |pat| <= |s| ==> s[i..i + |pat|] == b[i - |a|..i - |a| + |pat|];
      } else if i + |pat| <= |s| {
        var w := s[i..i + |pat|];
        assert w[|a| - 1 - i] == a[|a| - 1] && w[|a| - i] == b[0];
        assert w[|a| - 1 - i] in w && w[|a| - i] in w;
      }
    }
  }

  lemma AcrossSeam(a: string, b: string, pat: string)
    requires 0 < |a| < |pat| && pat <= a + b
    ensures b != "" && a[|a| - 1] in pat && b[0] in pat
  {
    var s := a + b;
    assert s[|a| - 1] == pat[|a| - 1] && s[|a|] == pat[|a|];
  }

  lemma {:induction false} ReplaceShort(a: string, b: string, pat: string, with: string)
    requires pat != "" && |a| < |pat|
    requires a == "" || b == "" || a[|a| - 1] !in pat || b[0] !in pat
    ensures Replace(a + b, pat, with) == a + Replace(b, pat, with)
    decreases |a|
  {
    var s := a + b;
    if a == "" {
      assert s == b;
    } else if |s| >= |pat| {
      if pat <= s {
        AcrossSeam(a, b, pat);
      }
      assert s[1..] == a[1..] + b;
      ReplaceShort(a[1..], b, pat, with);
      assert [a[0]] + (a[1..] + Replace(b, pat, with)) == a + Replace(b, pat, with);
    }
  }

  /** Replacing works on each side of a seam that no occurrence of the pattern can cross. */
  lemma {:induction false} ReplaceSeam(a: string, b: string, pat: string, with: string)
    requires pat != ""
    requires a == "" || b == "" || a[|a| - 1] !in pat || b[0] !in pat
    ensures Replace(a + b, pat, with) == Replace(a, pat, with) + Replace(b, pat, with)
    decreases |a|
  {
    var s := a + b;
    if |a| < |pat| {
      ReplaceShort(a, b, pat, with);
    } else {
      assert s[..|pat|] == a[..|pat|];
      if pat <= a {
        var x := a[|pat|..];
        assert s[|pat|..] == x + b;
        ReplaceSeam(x, b, pat, with);
        Associative(with, Replace(x, pat, with), Replace(b, pat, with));
      } else {
        var x := a[1..];
        assert s[1..] == x + b;
        ReplaceSeam(x, b, pat, with);
        Associative([a[0]], Replace(x, pat, with), Replace(b, pat, with));
      }
    }
  }

  lemma {:induction false} ReplaceKeepsOut(s: string, pat: string, with: string, c: char)
    requires pat != "" && c !in s && c !in with
    ensures c !in Replace(s, pat, with)
    decreases |s|
  {
    if |s| >= |pat| {
      if pat <= s {
        ReplaceKeepsOut(s[|pat|..], pat, with, c);
      } else {
        ReplaceKeepsOut(s[1..], pat, with, c);
      }
    }
  }

  lemma OccursInside(a: string, b: string, pat: string, i: nat)
    ensures i + |pat| <= |a| ==> (OccursAt(a + b, pat, i) <==> OccursAt(a, pat, i))
    ensures |a| <= i ==> (OccursAt(a + b, pat, i) <==> OccursAt(b, pat, i - |a|))
  {
    var s := a + b;
    assert i + |pat| <= |a| ==> s[i..i + |pat|] == a[i..i + |pat|];
    assert |a| <= i && i + |pat| <= |s| ==> s[i..i + |pat|] == b[i - |a|..i - |a| + |pat|];
  }

  /** An occurrence of a marker cannot overlap another one. */
  lemma NoOverlap(s: string, pat: string, i: nat, j: nat)
    requires Marker(pat) && OccursAt(s, pat, i) && i < j < i + |pat|
    ensures !OccursAt(s, pat, j)
  {
    assert s[i..i + |pat|][j - i] == s[j] == pat[j - i] == pat[1..][j - i - 1];
    assert j + |pat| <= |s| ==> s[j..j + |pat|][0] == s[j];
  }

  /** Between two marker-free texts a marker occurs exactly where it was written. */
  lemma OccursOnce(a: string, pat: string, b: string, i: nat)
    requires Marker(pat) && FreeOf(a, pat) && FreeOf(b, pat)
    ensures OccursAt(a + pat + b, pat, i) <==> i == |a|
  {
    var s := a + pat + b;
    assert s[|a|..|a| + |pat|] == pat;
    assert s == a + (pat + b);
    assert !OccursAt(a, pat, i);
    OccursInside(a, pat + b, pat, i);
    OccursInside(a + pat, b, pat, i);
    if |a| + |pat| <= i {
      assert !OccursAt(b, pat, i - |a + pat|);
    } else if |a| < i {
      NoOverlap(s, pat, |a|, i);
    } else if i < |a| < i + |pat| && OccursAt(s, pat, i) {
      NoOverlap(s, pat, i, |a|);
    }
  }
}

/** The Python string operations the back end relies on, each with the
    property that gives it its meaning: `in`, `split`/`join`, `replace`,
    `lstrip`, `splitlines`, `str(int)` and `zfill`. A `prefix <= s` on
    strings is Python's `s.startswith(prefix)`. */
module Text {

  /** `sub` occurs in `s` starting at position `i`. */
  predicate OccursAt(s: string, sub: string, i: nat) {
    i + |sub| <= |s| && s[i..i + |sub|] == sub
  }

  /** Python's `sub in s`. */
  predicate Contains(s: string, sub: string)
    decreases |s|
  {
    sub <= s || (s != [] && Contains(s[1..], sub))
  }

  lemma OccursAtShift(s: string, sub: string, i: nat)
    requires s != [] && i > 0
    ensures OccursAt(s, sub, i) <==> OccursAt(s[1..], sub, i - 1)
  {
    if i + |sub| <= |s| {
      assert s[1..][i - 1..i - 1 + |sub|] == s[i..i + |sub|];
    }
  }

  /** Contains agrees with the positional definition of a substring. */
  lemma {:induction false} ContainsIff(s: string, sub: string)
    ensures Contains(s, sub) <==> exists i: nat :: OccursAt(s, sub, i)
    decreases |s|
  {
    if sub <= s {
      assert OccursAt(s, sub, 0);
    } else if s == [] {
      assert |sub| > 0;
    } else {
      ContainsIff(s[1..], sub);
      if Contains(s[1..], sub) {
        var i: nat :| OccursAt(s[1..], sub, i);
        OccursAtShift(s, sub, i + 1);
      } else {
        forall i: nat ensures !OccursAt(s, sub, i) {
          if i > 0 {
            OccursAtShift(s, sub, i);
          }
        }
      }
    }
  }

  /** Python's `s.replace(p, r)`: every non-overlapping occurrence of `p`,
      scanning left to right, becomes `r`. */
  function ReplaceAll(s: string, p: string, r: string): string
    requires p != []
    decreases |s|
  {
    if p <= s then r + ReplaceAll(s[|p|..], p, r)
    else if s == [] then []
    else [s[0]] + ReplaceAll(s[1..], p, r)
  }

  /** Python's `s.replace(p, r, 1)`: only the first occurrence is replaced. */
  function ReplaceFirst(s: string, p: string, r: string): string
    requires p != []
    decreases |s|
  {
    if p <= s then r + s[|p|..]
    else if s == [] then []
    else [s[0]] + ReplaceFirst(s[1..], p, r)
  }

  /** Python's `s.split(sep)` for a non-empty separator. */
  function Split(s: string, sep: string): (parts: seq<string>)
    requires sep != []
    ensures |parts| >= 1
    decreases |s|
  {
    if sep <= s then [[]] + Split(s[|sep|..], sep)
    else if s == [] then [[]]
    else
      var rest := Split(s[1..], sep);
      [[s[0]] + rest[0]] + rest[1..]
  }

  /** Python's `sep.join(parts)`. */
  function Join(parts: seq<string>, sep: string): string
    decreases |parts|
  {
    if |parts| == 0 then []
    else if |parts| == 1 then parts[0]
    else parts[0] + sep + Join(parts[1..], sep)
  }

  /** Prepending a character to the first part prepends it to the join. */
  lemma JoinConsFirst(c: char, parts: seq<string>, sep: string)
    requires |parts| >= 1
    ensures Join([[c] + parts[0]] + parts[1..], sep) == [c] + Join(parts, sep)
  {
    var q := [[c] + parts[0]] + parts[1..];
    assert q[1..] == parts[1..];
  }

  /** An empty first part leaves just the separator in front. */
  lemma JoinEmptyFirst(parts: seq<string>, sep: string)
    requires |parts| >= 1
    ensures Join([[]] + parts, sep) == sep + Join(parts, sep)
  {
    assert ([[]] + parts)[1..] == parts;
  }

  /** Splitting and joining again with the same separator gives back the
      string: `sep.join(s.split(sep)) == s`. */
  lemma {:induction false} JoinSplit(s: string, sep: string)
    requires sep != []
    ensures Join(Split(s, sep), sep) == s
    decreases |s|
  {
    if sep <= s {
      var t := s[|sep|..];
      JoinSplit(t, sep);
      assert Split(s, sep) == [[]] + Split(t, sep);
      JoinEmptyFirst(Split(t, sep), sep);
      assert s == sep + t;
    } else if s != [] {
      var rest := Split(s[1..], sep);
      JoinSplit(s[1..], sep);
      assert Split(s, sep) == [[s[0]] + rest[0]] + rest[1..];
      JoinConsFirst(s[0], rest, sep);
      assert s == [s[0]] + s[1..];
    }
  }

  /** `s.replace(p, r) == r.join(s.split(p))`. */
  lemma {:induction false} ReplaceAllIsJoinOfSplit(s: string, p: string, r: string)
    requires p != []
    ensures ReplaceAll(s, p, r) == Join(Split(s, p), r)
    decreases |s|
  {
    if p <= s {
      ReplaceAllIsJoinOfSplit(s[|p|..], p, r);
      JoinEmptyFirst(Split(s[|p|..], p), r);
    } else if s != [] {
      ReplaceAllIsJoinOfSplit(s[1..], p, r);
      JoinConsFirst(s[0], Split(s[1..], p), r);
    }
  }

  /** Replacing a token by itself changes nothing. */
  lemma ReplaceAllSelf(s: string, p: string)
    requires p != []
    ensures ReplaceAll(s, p, p) == s
  {
    ReplaceAllIsJoinOfSplit(s, p, p);
    JoinSplit(s, p);
  }

  /** A string without the token is left as it is. */
  lemma {:induction false} ReplaceAllAbsent(s: string, p: string, r: string)
    requires p != [] && !Contains(s, p)
    ensures ReplaceAll(s, p, r) == s
    decreases |s|
  {
    if s != [] {
      ReplaceAllAbsent(s[1..], p, r);
    }
  }

  /** A string that starts with the token has it replaced right there. */
  lemma ReplaceFirstAtStart(s: string, p: string, r: string)
    requires p != [] && p <= s
    ensures ReplaceFirst(s, p, r) == r + s[|p|..]
  {
  }

  /** When `w` is a run of characters that cannot begin the token and `t`
      starts with the token, the first occurrence in `w + t` is the one at
      the start of `t`. */
  lemma {:induction false} ReplaceFirstAfterRun(w: string, t: string, p: string, r: string)
    requires p != [] && p <= t
    requires forall i :: 0 <= i < |w| ==> w[i] != p[0]
    ensures ReplaceFirst(w + t, p, r) == w + r + t[|p|..]
    decreases |w|
  {
    if w == [] {
      assert w + t == t;
    } else {
      var s := w + t;
      assert s[0] == w[0] != p[0];
      assert !(p <= s);
      assert s[1..] == w[1..] + t;
      ReplaceFirstAfterRun(w[1..], t, p, r);
      assert ReplaceFirst(s, p, r) == [w[0]] + (w[1..] + r + t[|p|..]);
      assert w + r + t[|p|..] == [w[0]] + (w[1..] + r + t[|p|..]);
    }
  }

  /** Python's `str.isspace()` for one character, by code point: tab to
      carriage return, the four separators 0x1C-0x1F, space, next line,
      no-break space and the Unicode space separators. */
  predicate IsSpace(c: char) {
    var n := c as int;
    (0x09 <= n <= 0x0D) || (0x1C <= n <= 0x20) || n == 0x85 || n == 0xA0
    || n == 0x1680 || (0x2000 <= n <= 0x200A) || n == 0x2028 || n == 0x2029
    || n == 0x202F || n == 0x205F || n == 0x3000
  }

  /** Python's `s.lstrip()`: drops the leading white space, nothing else. */
  function LStrip(s: string): (r: string)
    ensures |r| <= |s| && s == s[..|s| - |r|] + r
    ensures forall i :: 0 <= i < |s| - |r| ==> IsSpace(s[i])
    ensures r == [] || !IsSpace(r[0])
    decreases |s|
  {
    if s != [] && IsSpace(s[0]) then
      var r := LStrip(s[1..]);
      assert s[..|s| - |r|] == [s[0]] + s[1..][..|s| - 1 - |r|];
      r
    else s
  }

  /** The characters at which Python's `str.splitlines()` breaks a line,
      by code point: line feed, vertical tab, form feed, carriage return,
      the separators 0x1C-0x1E, next line, and the Unicode line and
      paragraph separators. */
  predicate IsLineBreak(c: char) {
    var n := c as int;
    (0x0A <= n <= 0x0D) || (0x1C <= n <= 0x1E) || n == 0x85 || n == 0x2028 || n == 0x2029
  }

  /** The position of the first line break, or `|s|` if there is none. */
  function FirstBreak(s: string): (i: nat)
    ensures i <= |s|
    ensures i < |s| ==> IsLineBreak(s[i])
    decreases |s|
  {
    if s == [] || IsLineBreak(s[0]) then 0 else 1 + FirstBreak(s[1..])
  }

  /** How many characters the line break at `i` takes: two for `\r\n`. */
  function BreakWidth(s: string, i: nat): (w: nat)
    requires i < |s|
    ensures 1 <= w <= 2 && i + w <= |s|
  {
    if s[i] == '\r' && i + 1 < |s| && s[i + 1] == '\n' then 2 else 1
  }

  /** Python's `s.splitlines()`: the lines without their terminators; a
      `\r\n` pair ends one line, and a final terminator does not start an
      empty line. */
  function SplitLines(s: string): seq<string>
    decreases |s|
  {
    if s == [] then []
    else
      var i := FirstBreak(s);
      if i == |s| then [s]
      else [s[..i]] + SplitLines(s[i + BreakWidth(s, i)..])
  }

  /** A line break inside `a` is found before anything appended to `a`,
      and takes as many characters there as in `a` alone when `a` ends
      with a line feed. */
  lemma {:induction false} FirstBreakAppend(a: string, b: string)
    requires a != [] && a[|a| - 1] == '\n'
    ensures FirstBreak(a) < |a|
    ensures FirstBreak(a + b) == FirstBreak(a)
    ensures BreakWidth(a + b, FirstBreak(a)) == BreakWidth(a, FirstBreak(a))
    decreases |a|
  {
    assert (a + b)[0] == a[0];
    if !IsLineBreak(a[0]) {
      assert |a| >= 2;
      assert (a + b)[1..] == a[1..] + b;
      FirstBreakAppend(a[1..], b);
    }
    var i := FirstBreak(a);
    assert (a + b)[i] == a[i];
    assert i + 1 < |a| ==> (a + b)[i + 1] == a[i + 1];
  }

  /** A text with a line break splits into its first line and the lines
      after the break, which ends at `j`. */
  lemma SplitLinesStep(s: string, i: nat, j: nat)
    requires s != [] && i == FirstBreak(s) < |s| && j == i + BreakWidth(s, i)
    ensures SplitLines(s) == [s[..i]] + SplitLines(s[j..])
  {
  }

  lemma AppendAssoc<T>(x: seq<T>, y: seq<T>, z: seq<T>)
    ensures x + (y + z) == (x + y) + z
  {
  }

  lemma AppendSlices(a: string, b: string, i: nat, j: nat)
    requires i <= j <= |a|
    ensures (a + b)[..i] == a[..i] && (a + b)[j..] == a[j..] + b
  {
  }

  /** Text that ends with a newline splits independently of what follows
      it: the lines of `a + b` are the lines of `a` and then those of `b`. */
  lemma {:induction false} SplitLinesAppend(a: string, b: string)
    requires a == [] || a[|a| - 1] == '\n'
    ensures SplitLines(a + b) == SplitLines(a) + SplitLines(b)
    decreases |a|
  {
    if a == [] {
      assert a + b == b;
    } else {
      FirstBreakAppend(a, b);
      var i := FirstBreak(a);
      var j := i + BreakWidth(a, i);
      var ab, rest := a + b, a[j..];
      SplitLinesStep(a, i, j);
      SplitLinesStep(ab, i, j);
      AppendSlices(a, b, i, j);
      assert rest == [] || rest[|rest| - 1] == a[|a| - 1];
      SplitLinesAppend(rest, b);
      var x, y, z := [a[..i]], SplitLines(rest), SplitLines(b);
      assert ab[j..] == rest + b;
      assert SplitLines(ab) == x + (y + z);
      AppendAssoc(x, y, z);
    }
  }

  predicate IsDigit(c: char) {
    '0' <= c <= '9'
  }

  predicate AllDigits(s: string) {
    forall i :: 0 <= i < |s| ==> IsDigit(s[i])
  }

  function DigitChar(d: nat): (c: char)
    requires d < 10
    ensures IsDigit(c)
  {
    ('0' as int + d) as char
  }

  /** Python's `str(n)` for a non-negative int. */
  function Decimal(n: nat): (s: string)
    ensures |s| >= 1 && AllDigits(s)
    decreases n
  {
    if n < 10 then [DigitChar(n)] else Decimal(n / 10) + [DigitChar(n % 10)]
  }

  /** The value of a string of decimal digits (Python's `int(s)`). */
  function DecimalValue(s: string): nat
    requires AllDigits(s)
    decreases |s|
  {
    if s == [] then 0
    else DecimalValue(s[..|s| - 1]) * 10 + (s[|s| - 1] as int - '0' as int)
  }

  /** Reading back what `str` wrote gives the number: `int(str(n)) == n`. */
  lemma {:induction false} DecimalRoundTrip(n: nat)
    ensures DecimalValue(Decimal(n)) == n
    decreases n
  {
    if n >= 10 {
      DecimalRoundTrip(n / 10);
      var s := Decimal(n);
      assert s[..|s| - 1] == Decimal(n / 10);
    }
  }

  function Zeros(k: nat): (z: string)
    ensures |z| == k && forall i :: 0 <= i < k ==> z[i] == '0'
  {
    if k == 0 then [] else "0" + Zeros(k - 1)
  }

  /** Python's `s.zfill(width)`: zeros are added on the left, after a sign
      if there is one, until the string is `width` long. */
  function ZFill(s: string, width: nat): string {
    if |s| >= width then s
    else if s != [] && (s[0] == '+' || s[0] == '-') then [s[0]] + Zeros(width - |s|) + s[1..]
    else Zeros(width - |s|) + s
  }

  /** Leading zeros do not change the value of a digit string. */
  lemma {:induction false} LeadingZerosValue(k: nat, s: string)
    requires AllDigits(s)
    ensures AllDigits(Zeros(k) + s) && DecimalValue(Zeros(k) + s) == DecimalValue(s)
    decreases |s|
  {
    var z := Zeros(k) + s;
    if s == [] {
      assert z == Zeros(k);
      ZerosValue(k);
    } else {
      assert z[..|z| - 1] == Zeros(k) + s[..|s| - 1];
      LeadingZerosValue(k, s[..|s| - 1]);
    }
  }

  lemma {:induction false} ZerosValue(k: nat)
    ensures AllDigits(Zeros(k)) && DecimalValue(Zeros(k)) == 0
  {
    AllZeroValue(Zeros(k));
  }

  lemma {:induction false} AllZeroValue(z: string)
    requires forall i :: 0 <= i < |z| ==> z[i] == '0'
    ensures AllDigits(z) && DecimalValue(z) == 0
    decreases |z|
  {
    if z != [] {
      AllZeroValue(z[..|z| - 1]);
    }
  }
}

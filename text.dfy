/**
  The few Python `str` operations the training app relies on, written out over
  `seq<char>`: `strip`, `lower`, `capitalize`, `in`, `find`, `split(sep)`,
  `splitlines`, `replace` on one character, and `str(int)`.
*/
module Text {
  import opened Wrappers

  /** Python's `str.isspace` for one character. */
  predicate IsSpace(c: char) {
    || c == ' '
    || ('\t' <= c <= '\r')
    || ('\U{1C}' <= c <= '\U{1F}')
    || c == '\U{85}' || c == '\U{A0}' || c == '\U{1680}'
    || ('\U{2000}' <= c <= '\U{200A}')
    || c == '\U{2028}' || c == '\U{2029}' || c == '\U{202F}' || c == '\U{205F}' || c == '\U{3000}'
  }

  /** The characters at which Python's `str.splitlines` breaks a line. */
  predicate IsLineBreak(c: char) {
    || c == '\n' || c == '\r' || c == '\U{0B}' || c == '\U{0C}'
    || c == '\U{1C}' || c == '\U{1D}' || c == '\U{1E}'
    || c == '\U{85}' || c == '\U{2028}' || c == '\U{2029}'
  }

  predicate AllSpace(s: string) {
    forall i | 0 <= i < |s| :: IsSpace(s[i])
  }

  // ---------------------------------------------------------------- strip

  /** Python's `lstrip()`: drops the leading whitespace and nothing else. */
  function TrimStart(s: string): (r: string)
    ensures |r| <= |s| && r == s[|s| - |r|..]
    ensures AllSpace(s[..|s| - |r|])
    ensures r == [] || !IsSpace(r[0])
  {
    if s != [] && IsSpace(s[0]) then
      var r := TrimStart(s[1..]);
      assert forall i | 1 <= i < |s| - |r| :: s[1..][..|s| - 1 - |r|][i - 1] == s[i];
      r
    else s
  }

  /** Python's `rstrip()`: drops the trailing whitespace and nothing else. */
  function TrimEnd(s: string): (r: string)
    ensures |r| <= |s| && r == s[..|r|]
    ensures AllSpace(s[|r|..])
    ensures r == [] || !IsSpace(r[|r| - 1])
    decreases |s|
  {
    if s != [] && IsSpace(s[|s| - 1]) then
      var r := TrimEnd(s[..|s| - 1]);
      assert s[|r|..] == s[..|s| - 1][|r|..] + [s[|s| - 1]];
      r
    else s
  }

  /** Python's `strip()`. */
  function Strip(s: string): (r: string)
    ensures r == [] || (!IsSpace(r[0]) && !IsSpace(r[|r| - 1]))
    ensures r == [] <==> AllSpace(s)
  {
    var t := TrimStart(s);
    var r := TrimEnd(t);
    assert r != [] ==> r[0] == t[0];
    assert r == [] ==> AllSpace(t) by {
      if r == [] { assert t[|r|..] == t; }
    }
    assert r == [] ==> AllSpace(s) by {
      if r == [] {
        assert s == s[..|s| - |t|] + t;
      }
    }
    r
  }

  /** Leading whitespace in front of a non-blank start is what `lstrip()` removes. */
  lemma {:induction false} TrimStartPadded(left: string, rest: string)
    requires AllSpace(left)
    requires rest == [] || !IsSpace(rest[0])
    ensures TrimStart(left + rest) == rest
    decreases |left|
  {
    if left != [] {
      assert (left + rest)[1..] == left[1..] + rest;
      TrimStartPadded(left[1..], rest);
    }
  }

  /** Trailing whitespace after a non-blank end is what `rstrip()` removes. */
  lemma {:induction false} TrimEndPadded(rest: string, right: string)
    requires AllSpace(right)
    requires rest == [] || !IsSpace(rest[|rest| - 1])
    ensures TrimEnd(rest + right) == rest
    decreases |right|
  {
    if right != [] {
      var n := |right| - 1;
      assert (rest + right)[..|rest + right| - 1] == rest + right[..n];
      TrimEndPadded(rest, right[..n]);
    }
  }

  /** `strip()` removes exactly the surrounding whitespace: whatever the padding, the core comes back. */
  lemma StripUnpads(left: string, core: string, right: string)
    requires AllSpace(left) && AllSpace(right)
    requires core == [] || (!IsSpace(core[0]) && !IsSpace(core[|core| - 1]))
    ensures Strip(left + core + right) == core
  {
    if core == [] {
      assert left + core + right == (left + right) + [];
      TrimStartPadded(left + right, []);
      TrimEndPadded([], []);
    } else {
      assert left + core + right == left + (core + right);
      TrimStartPadded(left, core + right);
      TrimEndPadded(core, right);
    }
  }

  /** Text with no whitespace at either end is its own `strip()`. */
  lemma StripTrimmed(s: string)
    requires s == [] || (!IsSpace(s[0]) && !IsSpace(s[|s| - 1]))
    ensures Strip(s) == s
  {
    StripUnpads([], s, []);
    assert [] + s + [] == s;
  }

  /** `strip()` drops one leading blank in front of text with no whitespace at either end. */
  lemma StripAfterBlank(s: string)
    requires s == [] || (!IsSpace(s[0]) && !IsSpace(s[|s| - 1]))
    ensures Strip(" " + s) == s
  {
    StripUnpads(" ", s, []);
    assert " " + s + [] == " " + s;
  }

  /** Stripping twice is stripping once. */
  lemma StripIdempotent(s: string)
    ensures Strip(Strip(s)) == Strip(s)
  {
    StripUnpads([], Strip(s), []);
    assert [] + Strip(s) + [] == Strip(s);
  }

  // ---------------------------------------------------------------- case

  predicate IsAsciiLetter(c: char) {
    ('A' <= c <= 'Z') || ('a' <= c <= 'z')
  }

  function LowerChar(c: char): char {
    if 'A' <= c <= 'Z' then (c as int + 32) as char else c
  }

  function UpperChar(c: char): char {
    if 'a' <= c <= 'z' then (c as int - 32) as char else c
  }

  /** Python's `lower()`, on the ASCII letters (see README for why this is enough here). */
  function Lower(s: string): (r: string)
    ensures |r| == |s|
    ensures forall i {:trigger r[i]} | 0 <= i < |s| :: r[i] == LowerChar(s[i])
  {
    seq(|s|, i requires 0 <= i < |s| => LowerChar(s[i]))
  }

  /** `lower()` leaves text without capitals unchanged. */
  lemma LowerNoCapitals(s: string)
    requires forall j | 0 <= j < |s| :: !('A' <= s[j] <= 'Z')
    ensures Lower(s) == s
  {
  }

  /** Python's `capitalize()`: first character upper-cased, the rest lower-cased (ASCII). */
  function Capitalize(s: string): (r: string)
    ensures |r| == |s|
    ensures s != [] ==> r[0] == UpperChar(s[0])
    ensures forall i {:trigger r[i]} | 1 <= i < |s| :: r[i] == LowerChar(s[i])
    ensures forall i | 0 <= i < |s| :: !IsAsciiLetter(s[i]) ==> r[i] == s[i]
  {
    if s == [] then [] else [UpperChar(s[0])] + Lower(s[1..])
  }

  /** `capitalize()` maps letters to letters and leaves everything else alone, so it adds no other character. */
  lemma CapitalizeKeepsOut(s: string, c: char)
    requires !IsAsciiLetter(c) && c !in s
    ensures c !in Capitalize(s)
  {
    var r := Capitalize(s);
    forall i | 0 <= i < |s| ensures r[i] != c {
      if IsAsciiLetter(s[i]) {
        if i == 0 {
          assert r[0] == UpperChar(s[0]);
        } else {
          assert r[i] == Lower(s[1..])[i - 1] == LowerChar(s[i]);
        }
      }
    }
  }

  // ---------------------------------------------------------------- search

  /** `sub` starts at index `i` of `s`. */
  predicate Occurs(s: string, sub: string, i: nat) {
    i + |sub| <= |s| && s[i..i + |sub|] == sub
  }

  /** Python's `s.find(sub)`: the leftmost start of `sub`, or nothing. */
  function Find(s: string, sub: string): (r: Option<nat>)
    ensures r.Some? ==> Occurs(s, sub, r.value)
    ensures r.Some? ==> forall j :: 0 <= j < r.value ==> !Occurs(s, sub, j)
    ensures r.None? ==> forall j :: 0 <= j <= |s| ==> !Occurs(s, sub, j)
    decreases |s|
  {
    if |s| < |sub| then None
    else if s[..|sub|] == sub then Some(0)
    else
      var rest := Find(s[1..], sub);
      assert forall j :: 1 <= j <= |s| ==> (Occurs(s, sub, j) <==> Occurs(s[1..], sub, j - 1)) by {
        forall j | 1 <= j <= |s| ensures Occurs(s, sub, j) <==> Occurs(s[1..], sub, j - 1) {
          if j + |sub| <= |s| {
            assert s[1..][j - 1..j - 1 + |sub|] == s[j..j + |sub|];
          }
        }
      }
      match rest
      case None => None
      case Some(k) => Some(k + 1)
  }

  /** A `sub` whose first character is absent from `prefix` is first found right after `prefix`. */
  lemma FindAfterPrefix(prefix: string, sub: string, rest: string)
    requires sub != [] && sub[0] !in prefix
    ensures Find(prefix + sub + rest, sub) == Some(|prefix|)
  {
    var s := prefix + sub + rest;
    assert s[|prefix|..|prefix| + |sub|] == sub;
    forall j | 0 <= j < |prefix| ensures !Occurs(s, sub, j) {
      assert s[j] == prefix[j];
      if j + |sub| <= |s| {
        assert s[j..j + |sub|][0] == s[j];
      }
    }
    FindFirst(s, sub, |prefix|);
  }

  /** The leftmost occurrence is the one `Find` reports. */
  lemma FindFirst(s: string, sub: string, i: nat)
    requires Occurs(s, sub, i)
    requires forall j :: 0 <= j < i ==> !Occurs(s, sub, j)
    ensures Find(s, sub) == Some(i)
  {
  }

  /** The first index of character `c`: `s.find(c)` for a one-character `c`. */
  function IndexOfChar(s: string, c: char): (r: Option<nat>)
    ensures r.Some? ==> r.value < |s| && s[r.value] == c
    ensures r.Some? ==> forall j | 0 <= j < r.value :: s[j] != c
    ensures r.None? ==> c !in s
    decreases |s|
  {
    if s == [] then None
    else if s[0] == c then Some(0)
    else match IndexOfChar(s[1..], c)
      case None => None
      case Some(k) => Some(k + 1)
  }

  /** Python's `sub in s`. */
  predicate Contains(s: string, sub: string) {
    Find(s, sub).Some?
  }

  /** One occurrence is enough for `sub in s`. */
  lemma ContainsAt(s: string, sub: string, i: nat)
    requires Occurs(s, sub, i)
    ensures Contains(s, sub)
  {
  }

  // ---------------------------------------------------------------- split

  /** Python's `s.split(sep)` for a non-empty separator: cuts at every leftmost, non-overlapping occurrence. */
  function Split(s: string, sep: string): (parts: seq<string>)
    requires sep != []
    ensures |parts| >= 1
    ensures forall k | 0 <= k < |parts| - 1 :: !Contains(parts[k], sep)
    decreases |s|
  {
    match Find(s, sep)
    case None => [s]
    case Some(i) =>
      assert !Contains(s[..i], sep) by {
        forall j | 0 <= j <= i ensures !Occurs(s[..i], sep, j) {
          if Occurs(s[..i], sep, j) {
            assert s[..i][j..j + |sep|] == s[j..j + |sep|];
            assert Occurs(s, sep, j);
          }
        }
      }
      [s[..i]] + Split(s[i + |sep|..], sep)
  }

  /** Python's `sep.join(parts)`. */
  function Join(sep: string, parts: seq<string>): string
    requires |parts| >= 1
    decreases |parts|
  {
    if |parts| == 1 then parts[0] else parts[0] + sep + Join(sep, parts[1..])
  }

  /** `sep.join(s.split(sep)) == s`: splitting loses nothing. */
  lemma {:induction false} SplitJoin(s: string, sep: string)
    requires sep != []
    ensures Join(sep, Split(s, sep)) == s
    decreases |s|
  {
    match Find(s, sep)
    case None =>
    case Some(i) =>
      var rest := s[i + |sep|..];
      var parts := Split(s, sep);
      assert parts == [s[..i]] + Split(rest, sep);
      assert parts[1..] == Split(rest, sep);
      SplitJoin(rest, sep);
      assert Join(sep, parts) == s[..i] + sep + Join(sep, Split(rest, sep));
      assert s == s[..i] + sep + rest;
  }

  /** No occurrence: one piece, the whole string. */
  lemma SplitAbsent(s: string, sep: string)
    requires sep != []
    requires forall j :: 0 <= j <= |s| ==> !Occurs(s, sep, j)
    ensures Split(s, sep) == [s]
  {
  }

  /** One leftmost occurrence at `i` and none from `i + |sep|` on: exactly two pieces. */
  lemma SplitInTwo(s: string, sep: string, i: nat)
    requires sep != []
    requires Occurs(s, sep, i)
    requires forall j :: 0 <= j < i ==> !Occurs(s, sep, j)
    requires forall j :: i + |sep| <= j <= |s| ==> !Occurs(s, sep, j)
    ensures Split(s, sep) == [s[..i], s[i + |sep|..]]
  {
    FindFirst(s, sep, i);
    var k := i + |sep|;
    var rest := s[k..];
    forall j | 0 <= j <= |rest| ensures !Occurs(rest, sep, j) {
      OccursShift(s, sep, k, j);
    }
    SplitAbsent(rest, sep);
  }

  /** An occurrence in a suffix is an occurrence in the whole string, shifted. */
  lemma OccursShift(s: string, sub: string, k: nat, j: nat)
    requires k <= |s|
    ensures Occurs(s[k..], sub, j) == Occurs(s, sub, k + j)
  {
    if k + j + |sub| <= |s| {
      assert s[k..][j..j + |sub|] == s[k + j..k + j + |sub|];
    }
  }

  /** A second, non-overlapping occurrence after the leftmost one: three pieces or more. */
  lemma SplitInThreeOrMore(s: string, sep: string, i: nat, j: nat)
    requires sep != []
    requires Occurs(s, sep, i)
    requires forall k :: 0 <= k < i ==> !Occurs(s, sep, k)
    requires i + |sep| <= j && Occurs(s, sep, j)
    ensures |Split(s, sep)| >= 3
  {
    FindFirst(s, sep, i);
    var rest := s[i + |sep|..];
    assert rest[j - i - |sep|..j - i - |sep| + |sep|] == s[j..j + |sep|];
    assert Occurs(rest, sep, j - i - |sep|);
    assert Find(rest, sep).Some?;
  }

  // ---------------------------------------------------------------- splitlines

  /** Index of the first line-break character. */
  function FirstLineBreak(s: string): (r: Option<nat>)
    ensures r.Some? ==> r.value < |s| && IsLineBreak(s[r.value])
    ensures r.Some? ==> forall j | 0 <= j < r.value :: !IsLineBreak(s[j])
    ensures r.None? ==> forall j | 0 <= j < |s| :: !IsLineBreak(s[j])
    decreases |s|
  {
    if s == [] then None
    else if IsLineBreak(s[0]) then Some(0)
    else match FirstLineBreak(s[1..])
      case None => None
      case Some(k) => Some(k + 1)
  }

  /**
    Python's `splitlines()`: lines without their terminators, `\r\n` counting as one
    break, and no empty last line after a final terminator.
  */
  function SplitLines(s: string): (lines: seq<string>)
    ensures forall k, j | 0 <= k < |lines| && 0 <= j < |lines[k]| :: !IsLineBreak(lines[k][j])
    ensures s == [] <==> lines == []
    decreases |s|
  {
    if s == [] then []
    else match FirstLineBreak(s)
      case None => [s]
      case Some(i) =>
        var next := if s[i] == '\r' && i + 1 < |s| && s[i + 1] == '\n' then i + 2 else i + 1;
        [s[..i]] + SplitLines(s[next..])
  }

  /** Printable ASCII text (space to tilde) holds no line break. */
  lemma PrintableHasNoBreak(s: string)
    requires forall j | 0 <= j < |s| :: ' ' <= s[j] <= '~'
    ensures forall j | 0 <= j < |s| :: !IsLineBreak(s[j])
  {
  }

  /** A non-empty text without a break is one line. */
  lemma SplitLinesOneLine(s: string)
    requires s != []
    requires forall j | 0 <= j < |s| :: !IsLineBreak(s[j])
    ensures SplitLines(s) == [s]
  {
  }

  /** On text whose only breaks are `\n` and that does not end in one, `splitlines` is undone by joining with `\n`. */
  lemma {:induction false} SplitLinesJoin(s: string)
    requires s != [] && s[|s| - 1] != '\n'
    requires forall j | 0 <= j < |s| :: IsLineBreak(s[j]) ==> s[j] == '\n'
    ensures Join("\n", SplitLines(s)) == s
    decreases |s|
  {
    match FirstLineBreak(s)
    case None =>
      SplitLinesOneLine(s);
    case Some(i) =>
      var first := s[..i];
      var rest := s[i + 1..];
      assert s == first + "\n" + rest by {
        assert s[i] == '\n';
      }
      assert rest != [] && rest[|rest| - 1] != '\n' by {
        assert i < |s| - 1;
        assert rest[|rest| - 1] == s[|s| - 1];
      }
      forall j | 0 <= j < |rest| ensures IsLineBreak(rest[j]) ==> rest[j] == '\n' {
        assert rest[j] == s[i + 1 + j];
      }
      assert forall j | 0 <= j < |first| :: !IsLineBreak(first[j]) by {
        forall j | 0 <= j < |first| ensures !IsLineBreak(first[j]) {
          assert first[j] == s[j];
        }
      }
      SplitLinesCons(first, rest);
      SplitLinesJoin(rest);
      var lines := [first] + SplitLines(rest);
      assert lines[1..] == SplitLines(rest);
      assert Join("\n", lines) == first + "\n" + Join("\n", SplitLines(rest));
  }

  // ---------------------------------------------------------------- misc

  /** Python's `s.replace(a, b)` for one-character `a` and `b`. */
  function ReplaceChar(s: string, a: char, b: char): (r: string)
    ensures |r| == |s|
    ensures forall i | 0 <= i < |s| :: r[i] == (if s[i] == a then b else s[i])
  {
    seq(|s|, i requires 0 <= i < |s| => if s[i] == a then b else s[i])
  }

  predicate IsDigit(c: char) {
    '0' <= c <= '9'
  }

  function DigitChar(d: nat): (c: char)
    requires d < 10
    ensures IsDigit(c)
  {
    ('0' as int + d) as char
  }

  /** The value of a string of decimal digits. */
  function DigitsValue(s: string): nat
    requires forall i | 0 <= i < |s| :: IsDigit(s[i])
    decreases |s|
  {
    if s == [] then 0
    else
      var d := s[|s| - 1];
      assert IsDigit(d);
      DigitsValue(s[..|s| - 1]) * 10 + (d as int - '0' as int)
  }

  /** Python's `str(n)` for a natural number: decimal digits, no leading zero. */
  function NatToString(n: nat): (r: string)
    ensures |r| >= 1
    ensures forall i | 0 <= i < |r| :: IsDigit(r[i])
    ensures r[0] == '0' ==> r == "0"
    decreases n
  {
    if n < 10 then [DigitChar(n)] else NatToString(n / 10) + [DigitChar(n % 10)]
  }

  /** Reading back the digits `str(n)` wrote gives `n`. */
  lemma {:induction false} NatToStringRoundTrip(n: nat)
    ensures DigitsValue(NatToString(n)) == n
    decreases n
  {
    if n >= 10 {
      NatToStringRoundTrip(n / 10);
      var s := NatToString(n);
      assert s[..|s| - 1] == NatToString(n / 10);
    }
  }

  /** Python's `str(i)` for any integer. */
  function IntToString(i: int): (r: string)
    ensures |r| >= 1
    ensures i < 0 <==> r[0] == '-'
  {
    if i < 0 then "-" + NatToString(-i) else NatToString(i)
  }
  // ---------------------------------------------------------------- join

  /** A character that is in neither the separator nor any part is not in the joined text. */
  lemma {:induction false} JoinAvoids(sep: string, parts: seq<string>, c: char)
    requires |parts| >= 1
    requires c !in sep
    requires forall k | 0 <= k < |parts| :: c !in parts[k]
    ensures c !in Join(sep, parts)
    decreases |parts|
  {
    if |parts| > 1 {
      JoinAvoids(sep, parts[1..], c);
    }
  }

  /** A first line without breaks, then `\n`: `splitlines()` gives that line, then the lines of the rest. */
  lemma SplitLinesCons(first: string, rest: string)
    requires forall j | 0 <= j < |first| :: !IsLineBreak(first[j])
    ensures SplitLines(first + "\n" + rest) == [first] + SplitLines(rest)
  {
    var s := first + "\n" + rest;
    var i := |first|;
    assert s[i] == '\n';
    assert forall j | 0 <= j < i :: s[j] == first[j];
    assert FirstLineBreak(s) == Some(i);
    assert s[..i] == first;
    assert s[i + 1..] == rest;
  }

  /** A join starts with the first part's first character and ends with the last part's last one. */
  lemma JoinEnds(sep: string, parts: seq<string>)
    requires |parts| >= 1 && parts[0] != [] && parts[|parts| - 1] != []
    ensures Join(sep, parts) != []
    ensures Join(sep, parts)[0] == parts[0][0]
    ensures Join(sep, parts)[|Join(sep, parts)| - 1] == parts[|parts| - 1][|parts[|parts| - 1]| - 1]
  {
    JoinLast(sep, parts);
  }

  /** A join whose last part is non-empty ends with that part's last character. */
  lemma {:induction false} JoinLast(sep: string, parts: seq<string>)
    requires |parts| >= 1 && parts[|parts| - 1] != []
    ensures Join(sep, parts) != []
    ensures Join(sep, parts)[|Join(sep, parts)| - 1] == parts[|parts| - 1][|parts[|parts| - 1]| - 1]
    decreases |parts|
  {
    if |parts| > 1 {
      var rest := parts[1..];
      assert rest[|rest| - 1] == parts[|parts| - 1];
      JoinLast(sep, rest);
      assert Join(sep, parts) == parts[0] + sep + Join(sep, rest);
    }
  }

  /** Lines without breaks, the last one non-empty, joined with `\n`: `splitlines()` gives them back. */
  lemma {:induction false} SplitLinesOfJoin(lines: seq<string>)
    requires |lines| >= 1 && lines[|lines| - 1] != []
    requires forall k, j | 0 <= k < |lines| && 0 <= j < |lines[k]| :: !IsLineBreak(lines[k][j])
    ensures SplitLines(Join("\n", lines)) == lines
    decreases |lines|
  {
    if |lines| == 1 {
      SplitLinesOneLine(lines[0]);
    } else {
      SplitLinesCons(lines[0], Join("\n", lines[1..]));
      SplitLinesOfJoin(lines[1..]);
      assert lines == [lines[0]] + lines[1..];
    }
  }
}

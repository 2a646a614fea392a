/** The parts of Python's `str`, `int()` and `float()` that the health monitor's
    parsers and validators depend on, stated on `seq<char>`. */
module PyText {
  import opened Wrappers

  /** A Python number as the monitor stores it: `int` and `float` stay apart,
      because a default `0` and a parsed `0.0` are written differently. */
  datatype Number = Int(i: int) | Float(f: real) {
    function Value(): real {
      match this
      case Int(i) => i as real
      case Float(f) => f
    }
  }

  // ---------------------------------------------------------------------------
  // Whitespace, strip

  /** The characters for which Python's `str.isspace()` holds; `split()` and
      `strip()` without arguments use exactly these. */
  predicate IsSpace(c: char) {
    var n := c as int;
    (9 <= n <= 13) || (28 <= n <= 32) || n == 0x85 || n == 0xA0 || n == 0x1680
    || (0x2000 <= n <= 0x200A) || n == 0x2028 || n == 0x2029 || n == 0x202F
    || n == 0x205F || n == 0x3000
  }

  predicate AllSpace(s: string) {
    forall i :: 0 <= i < |s| ==> IsSpace(s[i])
  }

  predicate NoSpace(s: string) {
    forall i :: 0 <= i < |s| ==> !IsSpace(s[i])
  }

  /** `s.lstrip()`: the suffix left after the leading whitespace. */
  function TrimStart(s: string): (r: string)
    ensures |r| <= |s|
    ensures r == [] || !IsSpace(r[0])
  {
    if |s| > 0 && IsSpace(s[0]) then TrimStart(s[1..]) else s
  }

  /** `s.rstrip()`: the prefix left before the trailing whitespace. */
  function TrimEnd(s: string): (r: string)
    ensures |r| <= |s| && (r == [] || r[0] == s[0])
    ensures r == [] || !IsSpace(r[|r| - 1])
  {
    if |s| > 0 && IsSpace(s[|s| - 1]) then TrimEnd(s[..|s| - 1]) else s
  }

  /** Neither the first nor the last character is whitespace. */
  predicate Unpadded(s: string) {
    s == [] || (!IsSpace(s[0]) && !IsSpace(s[|s| - 1]))
  }

  /** `s.strip()`: `s` without its leading and trailing whitespace. */
  function Strip(s: string): (r: string)
    ensures |r| <= |s|
    ensures Unpadded(r)
  {
    TrimEnd(TrimStart(s))
  }

  lemma {:induction false} TrimStartSpacePrefix(a: string, x: string)
    requires AllSpace(a)
    ensures TrimStart(a + x) == TrimStart(x)
    decreases |a|
  {
    if |a| > 0 {
      assert (a + x)[1..] == a[1..] + x;
      TrimStartSpacePrefix(a[1..], x);
    } else {
      assert a + x == x;
    }
  }

  lemma {:induction false} TrimEndSpaceSuffix(x: string, b: string)
    requires AllSpace(b)
    ensures TrimEnd(x + b) == TrimEnd(x)
    decreases |b|
  {
    if |b| > 0 {
      assert (x + b)[..|x + b| - 1] == x + b[..|b| - 1];
      TrimEndSpaceSuffix(x, b[..|b| - 1]);
    } else {
      assert x + b == x;
    }
  }

  lemma {:induction false} TrimStartAppend(s: string, b: string)
    requires !AllSpace(s)
    ensures TrimStart(s + b) == TrimStart(s) + b
    decreases |s|
  {
    if IsSpace(s[0]) {
      assert (s + b)[1..] == s[1..] + b;
      TrimStartAppend(s[1..], b);
    }
  }

  /** Whitespace around a string never changes what `strip()` returns. */
  lemma StripIgnoresPadding(a: string, s: string, b: string)
    requires AllSpace(a) && AllSpace(b)
    ensures Strip(a + s + b) == Strip(s)
  {
    assert a + s + b == a + (s + b);
    TrimStartSpacePrefix(a, s + b);
    if AllSpace(s) {
      assert AllSpace(s + b);
      StripAllSpace(s + b);
      StripAllSpace(s);
    } else {
      TrimStartAppend(s, b);
      TrimEndSpaceSuffix(TrimStart(s), b);
    }
  }

  /** `strip()` yields the empty string exactly for all-whitespace input. */
  lemma StripAllSpace(s: string)
    ensures Strip(s) == [] <==> AllSpace(s)
  {
    var t := TrimStart(s);
    TrimStartAllSpace(s);
    TrimEndAllSpace(t);
  }

  lemma {:induction false} TrimStartAllSpace(s: string)
    ensures TrimStart(s) == [] <==> AllSpace(s)
    decreases |s|
  {
    if |s| > 0 && IsSpace(s[0]) {
      TrimStartAllSpace(s[1..]);
      assert AllSpace(s) <==> AllSpace(s[1..]) by {
        assert forall i :: 0 < i < |s| ==> s[i] == s[1..][i - 1];
      }
    }
  }

  lemma {:induction false} TrimEndAllSpace(s: string)
    ensures TrimEnd(s) == [] <==> AllSpace(s)
    decreases |s|
  {
    if |s| > 0 && IsSpace(s[|s| - 1]) {
      TrimEndAllSpace(s[..|s| - 1]);
      assert AllSpace(s) <==> AllSpace(s[..|s| - 1]) by {
        assert forall i :: 0 <= i < |s| - 1 ==> s[i] == s[..|s| - 1][i];
      }
    }
  }

  // ---------------------------------------------------------------------------
  // split() on whitespace runs

  /** Length of the leading run of non-whitespace characters of `s`. */
  function WordLength(s: string): (n: nat)
    ensures n <= |s| && NoSpace(s[..n]) && (n == |s| || IsSpace(s[n]))
  {
    if |s| == 0 || IsSpace(s[0]) then 0
    else
      var n := WordLength(s[1..]);
      assert s[..n + 1] == [s[0]] + s[1..][..n];
      n + 1
  }

  /** `s.split()`: the maximal runs of non-whitespace characters, in order;
      leading, trailing and repeated whitespace produce no empty fields. */
  function SplitWhitespace(s: string): (words: seq<string>)
    ensures forall i :: 0 <= i < |words| ==> words[i] != [] && NoSpace(words[i])
    decreases |s|
  {
    if |s| == 0 then []
    else if IsSpace(s[0]) then SplitWhitespace(s[1..])
    else
      var n := WordLength(s);
      var rest := SplitWhitespace(s[n..]);
      var words := [s[..n]] + rest;
      assert forall i :: 0 < i < |words| ==> words[i] == rest[i - 1];
      words
  }

  /** `" ".join(words)` */
  function JoinWords(words: seq<string>): string {
    if |words| == 0 then ""
    else if |words| == 1 then words[0]
    else words[0] + " " + JoinWords(words[1..])
  }

  /** `split()` undoes a space-join of non-empty, whitespace-free words. */
  lemma {:induction false} SplitWhitespaceJoin(words: seq<string>)
    requires forall i :: 0 <= i < |words| ==> words[i] != [] && NoSpace(words[i])
    ensures SplitWhitespace(JoinWords(words)) == words
    decreases |words|
  {
    if |words| == 1 {
      SplitWhitespaceWord(words[0], "");
      assert words[0] + "" == words[0];
    } else if |words| > 1 {
      var rest := words[1..];
      var tail := JoinWords(rest);
      JoinWordsCons(words);
      SplitWhitespaceJoin(rest);
      SplitWhitespaceWord(words[0], " " + tail);
      SplitWhitespaceBlank(tail);
      assert words == [words[0]] + rest;
    }
  }

  lemma JoinWordsCons(words: seq<string>)
    requires |words| > 1
    ensures JoinWords(words) == words[0] + (" " + JoinWords(words[1..]))
  {
  }

  lemma SplitWhitespaceBlank(s: string)
    ensures SplitWhitespace(" " + s) == SplitWhitespace(s)
  {
    assert AllSpace(" ");
    SplitWhitespaceSpacePrefix(" ", s);
  }

  /** A word followed by whitespace (or by nothing) is the first field. */
  lemma SplitWhitespaceWord(w: string, rest: string)
    requires w != [] && NoSpace(w) && (rest == [] || IsSpace(rest[0]))
    ensures SplitWhitespace(w + rest) == [w] + SplitWhitespace(rest)
  {
    WordOfPrefix(w, rest);
    assert (w + rest)[..|w|] == w;
    assert (w + rest)[|w|..] == rest;
  }

  lemma {:induction false} WordOfPrefix(w: string, rest: string)
    requires NoSpace(w) && (rest == [] || IsSpace(rest[0]))
    ensures WordLength(w + rest) == |w|
    decreases |w|
  {
    if |w| > 0 {
      assert (w + rest)[1..] == w[1..] + rest;
      WordOfPrefix(w[1..], rest);
    } else {
      assert w + rest == rest;
    }
  }

  /** Leading whitespace never changes the fields `split()` finds. */
  lemma {:induction false} SplitWhitespaceSpacePrefix(a: string, s: string)
    requires AllSpace(a)
    ensures SplitWhitespace(a + s) == SplitWhitespace(s)
    decreases |a|
  {
    if |a| > 0 {
      assert (a + s)[1..] == a[1..] + s;
      SplitWhitespaceSpacePrefix(a[1..], s);
    } else {
      assert a + s == s;
    }
  }

  // ---------------------------------------------------------------------------
  // Substring search and split(sep)

  predicate OccursAt(s: string, sep: string, j: nat) {
    j + |sep| <= |s| && s[j..j + |sep|] == sep
  }

  /** `s.find(sep)`: the first position where `sep` occurs in `s`, if any. */
  function IndexOf(s: string, sep: string): (r: Option<nat>)
    requires |sep| > 0
    ensures r.Some? ==> OccursAt(s, sep, r.value)
    ensures r.Some? ==> forall j: nat :: j < r.value ==> !OccursAt(s, sep, j)
    ensures r.None? ==> forall j: nat :: !OccursAt(s, sep, j)
    decreases |s|
  {
    if |s| < |sep| then None
    else if s[..|sep|] == sep then Some(0)
    else
      var r := IndexOf(s[1..], sep);
      forall j: nat | 0 < j && j + |sep| <= |s|
        ensures OccursAt(s, sep, j) == OccursAt(s[1..], sep, j - 1)
      {
        assert s[1..][j - 1..j - 1 + |sep|] == s[j..j + |sep|];
      }
      match r
      case None => None
      case Some(i) => Some(i + 1)
  }

  /** `sub in s`, for a non-empty `sub`. */
  predicate Contains(s: string, sub: string)
    requires |sub| > 0
  {
    IndexOf(s, sub).Some?
  }

  /** `s.split(sep)`: the pieces between non-overlapping occurrences of `sep`,
      found left to right; empty pieces are kept. */
  function SplitOn(s: string, sep: string): (parts: seq<string>)
    requires |sep| > 0
    ensures |parts| >= 1
    decreases |s|
  {
    match IndexOf(s, sep)
    case None => [s]
    case Some(i) => [s[..i]] + SplitOn(s[i + |sep|..], sep)
  }

  /** `sep.join(parts)` */
  function Join(parts: seq<string>, sep: string): string
    requires |parts| >= 1
  {
    if |parts| == 1 then parts[0] else parts[0] + sep + Join(parts[1..], sep)
  }

  /** `split(sep)` loses nothing: joining the pieces with `sep` gives `s` back,
      and no piece contains `sep`. */
  lemma {:induction false} SplitOnJoin(s: string, sep: string)
    requires |sep| > 0
    ensures Join(SplitOn(s, sep), sep) == s
    ensures forall k :: 0 <= k < |SplitOn(s, sep)| ==> !Contains(SplitOn(s, sep)[k], sep)
    decreases |s|
  {
    match IndexOf(s, sep)
    case None =>
    case Some(i) =>
      var rest := s[i + |sep|..];
      SplitOnJoin(rest, sep);
      CutAtOccurrence(s, sep, i);
      BeforeFirstOccurrence(s, sep, i);
      var parts := SplitOn(s, sep);
      assert parts == [s[..i]] + SplitOn(rest, sep);
      forall k | 0 < k < |parts| ensures !Contains(parts[k], sep) {
        assert parts[k] == SplitOn(rest, sep)[k - 1];
      }
  }

  lemma CutAtOccurrence(s: string, sep: string, i: nat)
    requires OccursAt(s, sep, i)
    ensures s == s[..i] + sep + s[i + |sep|..]
  {
    assert s[i..i + |sep|] == sep;
  }

  /** Nothing before the first occurrence contains `sep`. */
  lemma BeforeFirstOccurrence(s: string, sep: string, i: nat)
    requires |sep| > 0 && IndexOf(s, sep) == Some(i)
    ensures !Contains(s[..i], sep)
  {
    var p := s[..i];
    if Contains(p, sep) {
      var j := IndexOf(p, sep).value;
      assert p[j..j + |sep|] == s[j..j + |sep|];
      assert OccursAt(s, sep, j);
      assert false;
    }
  }

  /** When `sep` first occurs right after `x`, `split(sep)` cuts there. */
  lemma SplitOnAt(x: string, sep: string, y: string)
    requires |sep| > 0 && IndexOf(x + sep + y, sep) == Some(|x|)
    ensures SplitOn(x + sep + y, sep) == [x] + SplitOn(y, sep)
  {
    var s := x + sep + y;
    assert s[..|x|] == x;
    assert s[|x| + |sep|..] == y;
  }

  /** A separator whose first character does not occur in `x` is found right after `x`. */
  lemma IndexOfAfter(x: string, sep: string, y: string)
    requires |sep| > 0 && sep[0] !in x
    ensures IndexOf(x + sep + y, sep) == Some(|x|)
  {
    var s := x + sep + y;
    assert OccursAt(s, sep, |x|) by { assert s[|x|..|x| + |sep|] == sep; }
    forall j: nat | j < |x| ensures !OccursAt(s, sep, j) {
      assert s[j] == x[j];
      assert j + |sep| <= |s| ==> s[j..j + |sep|][0] == s[j];
    }
  }

  /** `sep` does not occur anywhere in `s`: `split(sep)` returns `[s]`. */
  lemma SplitOnAbsent(s: string, sep: string)
    requires |sep| > 0 && !Contains(s, sep)
    ensures SplitOn(s, sep) == [s]
  {
  }

  /** A separator whose first character does not occur in `s` is not found. */
  lemma NotContainsFirst(s: string, sep: string)
    requires |sep| > 0 && sep[0] !in s
    ensures !Contains(s, sep)
  {
    forall j: nat ensures !OccursAt(s, sep, j) {
      assert j + |sep| <= |s| ==> s[j..j + |sep|][0] == s[j];
    }
  }

  lemma NotContainsChar(s: string, c: char)
    requires c !in s
    ensures !Contains(s, [c])
  {
    NotContainsFirst(s, [c]);
  }

  /** `"".split(sep)` is `[""]`. */
  lemma SplitOnEmpty(sep: string)
    requires |sep| > 0
    ensures SplitOn("", sep) == [""]
  {
  }

  /** Appending text never moves an occurrence that is already there. */
  lemma IndexOfExtend(x: string, sep: string, y: string)
    requires |sep| > 0 && IndexOf(x, sep).Some?
    ensures IndexOf(x + y, sep) == IndexOf(x, sep)
  {
    var i := IndexOf(x, sep).value;
    OccursAtExtend(x, sep, y, i);
    forall j: nat | j < i ensures !OccursAt(x + y, sep, j) {
      assert !OccursAt(x, sep, j);
      OccursAtExtend(x, sep, y, j);
    }
    IndexOfUnique(x + y, sep, i);
  }

  lemma OccursAtExtend(x: string, sep: string, y: string, j: nat)
    requires j + |sep| <= |x|
    ensures OccursAt(x + y, sep, j) == OccursAt(x, sep, j)
  {
    assert (x + y)[j..j + |sep|] == x[j..j + |sep|];
  }

  /** The first occurrence is the one `find` reports. */
  lemma IndexOfUnique(s: string, sep: string, i: nat)
    requires |sep| > 0 && OccursAt(s, sep, i)
    requires forall j: nat :: j < i ==> !OccursAt(s, sep, j)
    ensures IndexOf(s, sep) == Some(i)
  {
    var r := IndexOf(s, sep);
    assert r.Some?;
    assert !(r.value < i);
  }

  /** `split(c)` on text glued with `c` splits each side separately. */
  lemma {:induction false} SplitOnConcat(x: string, c: char, y: string)
    ensures SplitOn(x + [c] + y, [c]) == SplitOn(x, [c]) + SplitOn(y, [c])
    decreases |x|
  {
    if c !in x {
      IndexOfAfter(x, [c], y);
      SplitOnAt(x, [c], y);
      NotContainsChar(x, c);
    } else {
      ContainsChar(x, c);
      SplitOnConcatStep(x, c, y);
    }
  }

  lemma {:induction false} SplitOnConcatStep(x: string, c: char, y: string)
    requires IndexOf(x, [c]).Some?
    ensures SplitOn(x + [c] + y, [c]) == SplitOn(x, [c]) + SplitOn(y, [c])
    decreases |x|, 0
  {
    var i := IndexOf(x, [c]).value;
    var tail := x[i + 1..];
    var s := x + [c] + y;
    assert s == x + ([c] + y);
    IndexOfExtend(x, [c], [c] + y);
    assert s[i + 1..] == tail + [c] + y;
    assert s[..i] == x[..i];
    SplitOnConcat(tail, c, y);
  }

  lemma ContainsChar(s: string, c: char)
    requires c in s
    ensures IndexOf(s, [c]).Some?
  {
    var k :| 0 <= k < |s| && s[k] == c;
    assert s[k..k + 1] == [c];
    assert OccursAt(s, [c], k);
  }

  /** `split(c)` undoes `c.join(parts)` when no part contains `c`. */
  lemma {:induction false} SplitOnJoinInverse(parts: seq<string>, c: char)
    requires |parts| >= 1
    requires forall i :: 0 <= i < |parts| ==> c !in parts[i]
    ensures SplitOn(Join(parts, [c]), [c]) == parts
    decreases |parts|
  {
    if |parts| == 1 {
      NotContainsChar(parts[0], c);
    } else {
      SplitOnJoinInverse(parts[1..], c);
      IndexOfAfter(parts[0], [c], Join(parts[1..], [c]));
      SplitOnAt(parts[0], [c], Join(parts[1..], [c]));
    }
  }

  /** A whitespace-free string is a prefix of a word followed by whitespace
      exactly when it is a prefix of the word itself. */
  lemma PrefixStopsAtSpace(p: string, w: string, rest: string)
    requires NoSpace(p) && (rest == [] || IsSpace(rest[0]))
    ensures p <= w + rest <==> p <= w
  {
    if |p| > |w| {
      if rest != [] && |p| <= |w + rest| {
        assert p[|w|] != (w + rest)[|w|];
      }
    } else {
      assert (w + rest)[..|p|] == w[..|p|];
    }
  }

  // ---------------------------------------------------------------------------
  // rstrip(c)

  /** `s.rstrip(c)`: `s` without the run of `c` characters that ends it. */
  function RStripChar(s: string, c: char): (r: string)
    ensures |r| <= |s| && r == s[..|r|]
    ensures r == [] || r[|r| - 1] != c
    ensures forall i :: |r| <= i < |s| ==> s[i] == c
  {
    if |s| > 0 && s[|s| - 1] == c then RStripChar(s[..|s| - 1], c) else s
  }

  /** `rstrip` undoes appending one `c` to text that does not end in `c`. */
  lemma RStripCharAppended(w: string, c: char)
    requires w == [] || w[|w| - 1] != c
    ensures RStripChar(w + [c], c) == w
  {
    assert (w + [c])[..|w|] == w;
  }

  // ---------------------------------------------------------------------------
  // Digits, int(), float()

  predicate IsDigit(c: char) {
    '0' <= c <= '9'
  }

  /** Every character is a decimal digit (the empty string included). */
  predicate OnlyDigits(s: string) {
    forall i :: 0 <= i < |s| ==> IsDigit(s[i])
  }

  /** `s.isdigit()` for ASCII text: non-empty and only digits. */
  predicate IsDigitString(s: string) {
    |s| > 0 && OnlyDigits(s)
  }

  function DigitValue(c: char): nat
    requires IsDigit(c)
  {
    (c as int - '0' as int) as nat
  }

  /** The value of a decimal numeral; the empty numeral is 0. */
  function DigitsValue(s: string): nat
    requires OnlyDigits(s)
  {
    if |s| == 0 then 0 else 10 * DigitsValue(s[..|s| - 1]) + DigitValue(s[|s| - 1])
  }

  function Pow10(n: nat): (p: nat)
    ensures p >= 1
  {
    if n == 0 then 1 else 10 * Pow10(n - 1)
  }

  /** `str(n)` for a non-negative `n`: its shortest decimal numeral. */
  function ShowNat(n: nat): (s: string)
    ensures IsDigitString(s)
  {
    if n < 10 then ['0' + n as char] else ShowNat(n / 10) + ['0' + (n % 10) as char]
  }

  lemma {:induction false} DigitsValueShowNat(n: nat)
    ensures DigitsValue(ShowNat(n)) == n
  {
    if n >= 10 {
      var s := ShowNat(n);
      assert s[..|s| - 1] == ShowNat(n / 10);
      DigitsValueShowNat(n / 10);
    }
  }

  /** `int(s)`: surrounding whitespace, an optional sign, then decimal digits;
      anything else raises, which is `None` here. */
  function ParseInt(s: string): (r: Option<int>)
    ensures r.Some? ==> Strip(s) != []
  {
    IntLiteral(Strip(s))
  }

  /** An optional sign followed by decimal digits, nothing else. */
  function IntLiteral(t: string): (r: Option<int>)
    ensures r.Some? ==> t != []
  {
    if |t| > 0 && (t[0] == '-' || t[0] == '+') then
      if IsDigitString(t[1..]) then
        Some(if t[0] == '-' then -(DigitsValue(t[1..]) as int) else DigitsValue(t[1..]))
      else None
    else if IsDigitString(t) then Some(DigitsValue(t))
    else None
  }

  /** A string that neither starts nor ends with whitespace is its own `strip()`. */
  lemma StripUnpadded(s: string)
    requires Unpadded(s)
    ensures Strip(s) == s
  {
    assert TrimStart(s) == s;
  }

  /** `int()` reads back what `str()` writes. */
  lemma ParseIntShowNat(n: nat)
    ensures ParseInt(ShowNat(n)) == Some(n)
  {
    ParseIntDigits(ShowNat(n));
    DigitsValueShowNat(n);
  }

  /** ... and the same with a minus sign. */
  lemma ParseIntShowNegative(n: nat)
    ensures ParseInt("-" + ShowNat(n)) == Some(-(n as int))
  {
    ParseIntNegativeDigits(ShowNat(n));
    DigitsValueShowNat(n);
  }

  lemma ParseIntDigits(s: string)
    requires IsDigitString(s)
    ensures ParseInt(s) == Some(DigitsValue(s))
  {
    assert IsDigit(s[0]) && IsDigit(s[|s| - 1]);
    StripUnpadded(s);
    assert IntLiteral(s) == Some(DigitsValue(s)) by {
      assert s[0] != '-' && s[0] != '+';
    }
  }

  lemma ParseIntNegativeDigits(s: string)
    requires IsDigitString(s)
    ensures ParseInt("-" + s) == Some(-(DigitsValue(s) as int))
  {
    var t := "-" + s;
    assert t[0] == '-' && t[|t| - 1] == s[|s| - 1];
    StripUnpadded(t);
    assert IntLiteral(t) == Some(-(DigitsValue(s) as int)) by {
      assert t[1..] == s;
    }
  }

  /** Position of the first character of `s` in `cs`, or `|s|`. */
  function FirstOf(s: string, cs: set<char>): (k: nat)
    ensures k <= |s| && (k < |s| ==> s[k] in cs)
    ensures forall i :: 0 <= i < k ==> s[i] !in cs
  {
    if |s| == 0 || s[0] in cs then 0 else 1 + FirstOf(s[1..], cs)
  }

  /** The number written `whole.frac`. */
  function DecimalValue(whole: string, frac: string): real
    requires OnlyDigits(whole) && OnlyDigits(frac)
  {
    DigitsValue(whole) as real + DigitsValue(frac) as real / Pow10(|frac|) as real
  }

  /** Digits, optionally with one `.` and more digits, and at least one digit. */
  function ParseMantissa(m: string): Option<real> {
    var dot := FirstOf(m, {'.'});
    var whole := m[..dot];
    var frac := if dot < |m| then m[dot + 1..] else "";
    if OnlyDigits(whole) && OnlyDigits(frac) && |whole| + |frac| > 0 then
      Some(DecimalValue(whole, frac))
    else None
  }

  /** `m` times ten to the power `e`, one factor of ten at a time. */
  function TimesPow10(m: real, e: nat): real {
    if e == 0 then m else 10.0 * TimesPow10(m, e - 1)
  }

  /** `m` divided by ten to the power `e`. */
  function OverPow10(m: real, e: nat): real {
    if e == 0 then m else OverPow10(m, e - 1) / 10.0
  }

  lemma {:induction false} ScalingIsPow10(m: real, e: nat)
    ensures TimesPow10(m, e) == m * Pow10(e) as real
    ensures OverPow10(m, e) == m / Pow10(e) as real
  {
    if e > 0 {
      ScalingIsPow10(m, e - 1);
      var p := Pow10(e - 1) as real;
      assert Pow10(e) as real == 10.0 * p;
      assert 10.0 * (m * p) == m * (10.0 * p);
      assert (m / p) / 10.0 == m / (10.0 * p);
    }
  }

  /** An unsigned decimal with an optional exponent `e`/`E` (signed digits). */
  function ParseUnsignedFloat(b: string): Option<real> {
    var k := FirstOf(b, {'e', 'E'});
    match ParseMantissa(b[..k])
    case None => None
    case Some(m) =>
      if k == |b| then Some(m)
      else
        var e := b[k + 1..];
        var neg := |e| > 0 && e[0] == '-';
        var digits := if |e| > 0 && (e[0] == '-' || e[0] == '+') then e[1..] else e;
        if !IsDigitString(digits) then None
        else if neg then Some(OverPow10(m, DigitsValue(digits)))
        else Some(TimesPow10(m, DigitsValue(digits)))
  }

  /** `float(s)` on decimal notation: surrounding whitespace, an optional sign,
      a mantissa and an optional exponent; anything else raises (`None`). */
  function ParseFloat(s: string): (r: Option<real>)
    ensures r.Some? ==> Strip(s) != []
  {
    FloatLiteral(Strip(s))
  }

  /** An optional sign followed by an unsigned decimal. */
  function FloatLiteral(t: string): (r: Option<real>)
    ensures r.Some? ==> t != []
  {
    if |t| > 0 && (t[0] == '-' || t[0] == '+') then
      match ParseUnsignedFloat(t[1..])
      case None => None
      case Some(v) => Some(if t[0] == '-' then -v else v)
    else ParseUnsignedFloat(t)
  }

  /** `float()` accepts every numeral `int()` accepts, with the same value. */
  lemma ParseFloatOfInt(s: string)
    requires ParseInt(s).Some?
    ensures ParseFloat(s) == Some(ParseInt(s).value as real)
  {
    FloatLiteralOfInt(Strip(s));
  }

  lemma FloatLiteralOfInt(t: string)
    requires IntLiteral(t).Some?
    ensures FloatLiteral(t) == Some(IntLiteral(t).value as real)
  {
    if t[0] == '-' || t[0] == '+' {
      ParseUnsignedFloatDigits(t[1..]);
    } else {
      ParseUnsignedFloatDigits(t);
    }
  }

  lemma ParseUnsignedFloatDigits(d: string)
    requires IsDigitString(d)
    ensures ParseUnsignedFloat(d) == Some(DigitsValue(d) as real)
  {
    NoMarkInDigits(d, {'e', 'E'});
    assert FirstOf(d, {'e', 'E'}) == |d|;
    assert d[..|d|] == d;
    ParseMantissaDigits(d);
  }

  lemma ParseMantissaDigits(d: string)
    requires IsDigitString(d)
    ensures ParseMantissa(d) == Some(DigitsValue(d) as real)
  {
    NoMarkInDigits(d, {'.'});
    assert d[..|d|] == d;
    assert DigitsValue("") == 0 && Pow10(0) == 1;
    assert DecimalValue(d, "") == DigitsValue(d) as real;
  }

  lemma NoMarkInDigits(d: string, marks: set<char>)
    requires OnlyDigits(d) && forall c :: c in marks ==> !IsDigit(c)
    ensures FirstOf(d, marks) == |d|
  {
    forall i | 0 <= i < |d| ensures d[i] !in marks {
      assert IsDigit(d[i]);
    }
  }

  /** `float()` reads `w.f` as the decimal it denotes. */
  lemma ParseFloatDecimal(w: string, f: string)
    requires IsDigitString(w) && OnlyDigits(f)
    ensures ParseFloat(w + "." + f) == Some(DecimalValue(w, f))
  {
    var s := w + "." + f;
    DecimalUnpadded(w, f);
    assert s[0] == w[0];
    ParseFloatUnsigned(s);
    DecimalHasNoExponent(w, f);
    UnsignedWithoutExponent(s);
    ParseMantissaDecimal(w, f);
  }

  lemma ParseFloatUnsigned(s: string)
    requires Strip(s) == s && |s| > 0 && IsDigit(s[0])
    ensures ParseFloat(s) == ParseUnsignedFloat(s)
  {
    assert FloatLiteral(s) == ParseUnsignedFloat(s) by {
      assert s[0] != '-' && s[0] != '+';
    }
  }

  lemma DecimalUnpadded(w: string, f: string)
    requires IsDigitString(w) && OnlyDigits(f)
    ensures Unpadded(w + "." + f) && Strip(w + "." + f) == w + "." + f
  {
    var s := w + "." + f;
    assert s[0] == w[0];
    assert s[|s| - 1] == (if |f| > 0 then f[|f| - 1] else '.');
    StripUnpadded(s);
  }

  lemma DecimalHasNoExponent(w: string, f: string)
    requires OnlyDigits(w) && OnlyDigits(f)
    ensures NoExponentMark(w + "." + f)
  {
    var s := w + "." + f;
    forall i | 0 <= i < |s| ensures s[i] !in {'e', 'E'} {
      assert i < |w| ==> s[i] == w[i];
      assert i > |w| ==> s[i] == f[i - |w| - 1];
    }
  }

  predicate NoExponentMark(s: string) {
    forall i :: 0 <= i < |s| ==> s[i] !in {'e', 'E'}
  }

  lemma UnsignedWithoutExponent(b: string)
    requires NoExponentMark(b)
    ensures ParseUnsignedFloat(b) == ParseMantissa(b)
  {
    NoMarkFirstOf(b, {'e', 'E'});
    assert b[..|b|] == b;
  }

  lemma ParseMantissaDecimal(w: string, f: string)
    requires IsDigitString(w) && OnlyDigits(f)
    ensures ParseMantissa(w + "." + f) == Some(DecimalValue(w, f))
  {
    var s := w + "." + f;
    DotAfterDigits(w, f);
    assert s[..|w|] == w;
    assert s[|w| + 1..] == f;
    assert |w| < |s|;
  }

  lemma DotAfterDigits(w: string, f: string)
    requires OnlyDigits(w)
    ensures FirstOf(w + "." + f, {'.'}) == |w|
  {
    NoMarkInDigits(w, {'.'});
    FirstOfAppend(w, "." + f, {'.'});
    assert w + "." + f == w + ("." + f);
  }

  lemma NoMarkFirstOf(s: string, marks: set<char>)
    requires forall i :: 0 <= i < |s| ==> s[i] !in marks
    ensures FirstOf(s, marks) == |s|
  {
  }

  lemma {:induction false} FirstOfAppend(x: string, y: string, marks: set<char>)
    requires FirstOf(x, marks) == |x|
    ensures FirstOf(x + y, marks) == |x| + FirstOf(y, marks)
    decreases |x|
  {
    if |x| > 0 {
      assert (x + y)[1..] == x[1..] + y;
      FirstOfAppend(x[1..], y, marks);
    } else {
      assert x + y == y;
    }
  }

  /** The two digits of `c` (`"%02d" % c`). */
  function TwoDigits(c: nat): (f: string)
    requires c < 100
    ensures |f| == 2 && OnlyDigits(f)
  {
    ['0' + (c / 10) as char, '0' + (c % 10) as char]
  }

  lemma TwoDigitsValue(c: nat)
    requires c < 100
    ensures DigitsValue(TwoDigits(c)) == c
  {
    var f := TwoDigits(c);
    assert DigitValue(f[0]) == c / 10 && DigitValue(f[1]) == c % 10;
    assert f[..1][..0] == [];
    assert DigitsValue(f[..1]) == c / 10;
  }

  /** `"%.2f" % (n / 100)` for a non-negative count `n` of hundredths. */
  function ShowCentis(n: nat): string {
    ShowNat(n / 100) + "." + TwoDigits(n % 100)
  }

  /** `float()` reads back a two-decimal rendering exactly. */
  lemma ParseFloatShowCentis(n: nat)
    ensures ParseFloat(ShowCentis(n)) == Some(n as real / 100.0)
  {
    CentisDecimal(n);
    ParseFloatAs(ShowCentis(n), ShowNat(n / 100), TwoDigits(n % 100), n as real / 100.0);
  }

  lemma CentisDecimal(n: nat)
    ensures ShowCentis(n) == ShowNat(n / 100) + "." + TwoDigits(n % 100)
    ensures IsDigitString(ShowNat(n / 100)) && OnlyDigits(TwoDigits(n % 100))
    ensures DecimalValue(ShowNat(n / 100), TwoDigits(n % 100)) == n as real / 100.0
  {
    CentisValue(n);
  }

  lemma ShowCentisParts(n: nat)
    ensures ShowCentis(n) == ShowNat(n / 100) + "." + TwoDigits(n % 100)
  {
  }

  /** `float()` reads `s` as `v` when `s` is `w.f` and `w.f` denotes `v`. */
  lemma ParseFloatAs(s: string, w: string, f: string, v: real)
    requires s == w + "." + f && IsDigitString(w) && OnlyDigits(f) && DecimalValue(w, f) == v
    ensures ParseFloat(s) == Some(v)
  {
    ParseFloatDecimal(w, f);
  }

  lemma CentisValue(n: nat)
    ensures DecimalValue(ShowNat(n / 100), TwoDigits(n % 100)) == n as real / 100.0
  {
    var c := n % 100;
    var w, f := ShowNat(n / 100), TwoDigits(c);
    DigitsValueShowNat(n / 100);
    TwoDigitsValue(c);
    assert Pow10(|f|) == 100;
    assert DecimalValue(w, f) == (n / 100) as real + c as real / 100.0;
    CentisArithmetic(n);
  }

  lemma CentisArithmetic(n: nat)
    ensures (n / 100) as real + (n % 100) as real / 100.0 == n as real / 100.0
  {
    assert n == 100 * (n / 100) + n % 100;
  }

  // ---------------------------------------------------------------------------
  // round(x, 2)

  /** The integer nearest to `y`, ties going to the even neighbour (Python's
      `round` on the exact value). */
  function RoundHalfEven(y: real): (n: int)
    ensures -0.5 <= n as real - y <= 0.5
    ensures y - y.Floor as real != 0.5 ==> -0.5 < n as real - y < 0.5
    ensures y - y.Floor as real == 0.5 ==> n % 2 == 0
  {
    var f := y.Floor;
    var d := y - f as real;
    if d < 0.5 then f
    else if d > 0.5 then f + 1
    else if f % 2 == 0 then f
    else f + 1
  }

  /** `round(x, 2)`: `x` to the nearest multiple of 0.01, ties to even. */
  function Round2(x: real): (r: real)
    ensures -0.005 <= r - x <= 0.005
    ensures (r * 100.0).Floor as real == r * 100.0
    ensures var y := x * 100.0; y - y.Floor as real != 0.5 ==> -0.005 < r - x < 0.005
    ensures var y := x * 100.0; y - y.Floor as real == 0.5 ==> (r * 100.0).Floor % 2 == 0
  {
    RoundHalfEven(x * 100.0) as real / 100.0
  }

  /** A value that already has at most two decimals is left alone. */
  lemma Round2Exact(k: int)
    ensures Round2(k as real / 100.0) == k as real / 100.0
  {
    var y := (k as real / 100.0) * 100.0;
    assert y == k as real;
    assert y.Floor == k;
  }

  /** Ties go to the even neighbour: 0.125 rounds down, 0.375 rounds up. */
  lemma Round2Ties()
    ensures Round2(0.125) == 0.12 && Round2(0.375) == 0.38
  {
    assert (0.125 * 100.0).Floor == 12;
    assert (0.375 * 100.0).Floor == 37;
  }
}

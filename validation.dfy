/** The input-validation lab (Day2/Lab9_Input_validation.py): the rule for
    service names, and what `read_port` and `read_service_name` accept. Each
    reader strips the line typed, refuses it with a reason or accepts it, and
    asks again after a refusal; the lines typed are an input sequence here,
    and running out of lines stands for `input()` raising at end of input. */
module Validation {
  import opened PyText
  import opened Wrappers

  // ---------------------------------------------------------------------------
  // Ports

  const MinPort: int := 1
  const MaxPort: int := 65535

  /** Why a typed port was refused, or the port it gives. The checks run in
      this order: emptiness, digits only, range. */
  datatype PortCheck = EmptyPort | NotAnInteger | OutOfRange | Port(port: int)

  /** One attempt of `read_port`. */
  function CheckPort(line: string): (r: PortCheck)
    ensures r.Port? ==> MinPort <= r.port <= MaxPort
  {
    var s := Strip(line);
    if s == "" then EmptyPort
    else if !IsDigitString(s) then NotAnInteger
    else
      var port := DigitsValue(s);
      if !(MinPort <= port <= MaxPort) then OutOfRange else Port(port)
  }

  /** A line is accepted exactly when its stripped form is a non-empty run of
      decimal digits whose value lies in 1..65535; the port is then what
      `int()` makes of that text. */
  lemma PortRule(line: string)
    ensures var s := Strip(line);
      CheckPort(line).Port? <==> s != [] && OnlyDigits(s) && MinPort <= DigitsValue(s) <= MaxPort
    ensures CheckPort(line).Port? ==> ParseInt(Strip(line)) == Some(CheckPort(line).port)
  {
    var s := Strip(line);
    if CheckPort(line).Port? {
      ParseIntDigits(s);
    }
  }

  /** The digits of every port in range are accepted as that port, with or
      without leading zeros and whatever whitespace surrounds them. */
  lemma PortNumeralAccepted(pre: string, zeros: nat, p: nat, post: string)
    requires AllSpace(pre) && AllSpace(post) && MinPort <= p <= MaxPort
    ensures CheckPort(pre + Zeros(zeros) + ShowNat(p) + post) == Port(p)
  {
    ZerosShowNat(zeros, p);
    PaddedPort(pre, Zeros(zeros), ShowNat(p), post, p);
  }

  lemma PaddedPort(pre: string, zs: string, ds: string, post: string, p: int)
    requires AllSpace(pre) && AllSpace(post) && IsDigitString(zs + ds) && DigitsValue(zs + ds) == p
    requires MinPort <= p <= MaxPort
    ensures CheckPort(pre + zs + ds + post) == Port(p)
  {
    var digits, line := zs + ds, pre + zs + ds + post;
    assert line == pre + digits + post;
    PaddedDigits(pre, digits, post);
    DigitsAccepted(line, p);
  }

  lemma DigitsAccepted(line: string, p: int)
    requires IsDigitString(Strip(line)) && DigitsValue(Strip(line)) == p && MinPort <= p <= MaxPort
    ensures CheckPort(line) == Port(p)
  {
  }

  lemma ZerosShowNat(zeros: nat, p: nat)
    ensures IsDigitString(Zeros(zeros) + ShowNat(p)) && DigitsValue(Zeros(zeros) + ShowNat(p)) == p
  {
    ZerosPrefix(zeros, ShowNat(p));
    DigitsValueShowNat(p);
  }

  /** `zeros` copies of the digit 0. */
  function Zeros(n: nat): (z: string)
    ensures |z| == n && OnlyDigits(z)
  {
    if n == 0 then "" else Zeros(n - 1) + "0"
  }

  /** Leading zeros do not change a numeral's value. */
  lemma {:induction false} ZerosPrefix(n: nat, s: string)
    requires IsDigitString(s)
    ensures IsDigitString(Zeros(n) + s) && DigitsValue(Zeros(n) + s) == DigitsValue(s)
    decreases |s|
  {
    var t := Zeros(n) + s;
    assert OnlyDigits(t) by {
      forall i | 0 <= i < |t| ensures IsDigit(t[i]) {
        if i < n { assert t[i] == Zeros(n)[i]; } else { assert t[i] == s[i - n]; }
      }
    }
    if |s| == 1 {
      ZerosValue(n);
      assert t[..|t| - 1] == Zeros(n);
    } else {
      var s' := s[..|s| - 1];
      assert t[..|t| - 1] == Zeros(n) + s';
      ZerosPrefix(n, s');
    }
  }

  lemma {:induction false} ZerosValue(n: nat)
    ensures DigitsValue(Zeros(n)) == 0
  {
    if n > 0 {
      var z := Zeros(n);
      ZerosValue(n - 1);
      assert z == Zeros(n - 1) + "0";
      assert z[..n - 1] == Zeros(n - 1) && z[n - 1] == '0';
      assert DigitsValue(z) == 10 * DigitsValue(Zeros(n - 1)) + DigitValue('0');
    }
  }

  /** Whitespace around a digit string is stripped away before the checks. */
  lemma PaddedDigits(pre: string, digits: string, post: string)
    requires AllSpace(pre) && AllSpace(post) && IsDigitString(digits)
    ensures Strip(pre + digits + post) == digits
  {
    StripIgnoresPadding(pre, digits, post);
    assert !IsSpace(digits[0]) && !IsSpace(digits[|digits| - 1]);
    StripUnpadded(digits);
  }

  /** 0 and every port above 65535 are refused as out of range. */
  lemma PortOutOfRange(p: nat)
    requires p < MinPort || p > MaxPort
    ensures CheckPort(ShowNat(p)) == OutOfRange
  {
    PaddedDigits("", ShowNat(p), "");
    assert "" + ShowNat(p) + "" == ShowNat(p);
    DigitsValueShowNat(p);
  }

  /** A sign is not a digit: `-1` and `+80` are refused as not integers. */
  lemma SignedPortRefused(sign: char, p: nat)
    requires sign == '-' || sign == '+'
    ensures CheckPort([sign] + ShowNat(p)) == NotAnInteger
  {
    var s := [sign] + ShowNat(p);
    assert !IsSpace(s[0]) && !IsSpace(s[|s| - 1]);
    StripUnpadded(s);
    assert !IsDigit(s[0]);
  }

  /** Whitespace around what is typed never changes the verdict. */
  lemma PortIgnoresPadding(pre: string, line: string, post: string)
    requires AllSpace(pre) && AllSpace(post)
    ensures CheckPort(pre + line + post) == CheckPort(line)
  {
    StripIgnoresPadding(pre, line, post);
  }

  /** The port of an accepted line. */
  function PortOf(line: string): Option<int> {
    match CheckPort(line)
    case Port(p) => Some(p)
    case _ => None
  }

  /** `read_port` on the lines typed: the first accepted port and how many
      lines were read, or `None` when the input ends first. */
  function ReadPort(lines: seq<string>): (r: Option<(int, nat)>)
    ensures r.Some? ==> 1 <= r.value.1 <= |lines| && CheckPort(lines[r.value.1 - 1]) == Port(r.value.0)
  {
    Attempts(PortOf, lines)
  }

  /** Every port `read_port` returns is in range and is the value of the
      digits typed. */
  lemma ReadPortValid(lines: seq<string>)
    requires ReadPort(lines).Some?
    ensures var (p, n) := ReadPort(lines).value;
      MinPort <= p <= MaxPort && ParseInt(Strip(lines[n - 1])) == Some(p)
  {
    var (p, n) := ReadPort(lines).value;
    PortRule(lines[n - 1]);
  }

  // ---------------------------------------------------------------------------
  // Service names

  /** `ch.isalnum()` on ASCII letters and digits. */
  predicate IsAlnum(c: char) {
    'a' <= c <= 'z' || 'A' <= c <= 'Z' || '0' <= c <= '9'
  }

  predicate ServiceNameChar(c: char) {
    IsAlnum(c) || c == '_' || c == '-'
  }

  /** `_valid_service_name`: 3 to 20 characters, each a letter, a digit, `_`
      or `-`. */
  predicate ValidServiceName(name: string) {
    3 <= |name| <= 20 && forall i :: 0 <= i < |name| ==> ServiceNameChar(name[i])
  }

  /** Both length limits are inclusive: with allowed characters only, 3 and
      20 characters pass and 2 and 21 do not. */
  lemma ServiceNameLength(name: string)
    requires forall i :: 0 <= i < |name| ==> ServiceNameChar(name[i])
    ensures |name| == 2 || |name| == 21 ==> !ValidServiceName(name)
    ensures |name| == 3 || |name| == 20 ==> ValidServiceName(name)
  {
  }

  /** A valid name holds no whitespace, so it is its own `strip()`. */
  lemma ServiceNameUnpadded(name: string)
    requires ValidServiceName(name)
    ensures NoSpace(name) && Strip(name) == name
  {
    assert !IsSpace(name[0]) && !IsSpace(name[|name| - 1]);
    StripUnpadded(name);
  }

  /** Why a typed service name was refused, or the name it gives. */
  datatype NameCheck = EmptyName | BadFormat | Name(name: string)

  /** One attempt of `read_service_name`. */
  function CheckServiceName(line: string): (r: NameCheck)
  {
    var s := Strip(line);
    if s == "" then EmptyName
    else if !ValidServiceName(s) then BadFormat
    else Name(s)
  }

  /** A line is accepted exactly when its stripped form is a valid name, which
      is then the name; the emptiness check only chooses the message, since
      the empty name is not valid either. */
  lemma ServiceNameRule(line: string)
    ensures CheckServiceName(line).Name? <==> ValidServiceName(Strip(line))
    ensures CheckServiceName(line).Name? ==> CheckServiceName(line).name == Strip(line)
    ensures !ValidServiceName("")
  {
  }

  /** Whitespace around a valid name is dropped and the name accepted. */
  lemma PaddedServiceName(pre: string, name: string, post: string)
    requires AllSpace(pre) && AllSpace(post) && ValidServiceName(name)
    ensures CheckServiceName(pre + name + post) == Name(name)
  {
    StripIgnoresPadding(pre, name, post);
    ServiceNameUnpadded(name);
  }

  /** The name of an accepted line. */
  function NameOf(line: string): Option<string> {
    match CheckServiceName(line)
    case Name(n) => Some(n)
    case _ => None
  }

  /** `read_service_name` on the lines typed. */
  function ReadServiceName(lines: seq<string>): (r: Option<(string, nat)>)
    ensures r.Some? ==> 1 <= r.value.1 <= |lines| && CheckServiceName(lines[r.value.1 - 1]) == Name(r.value.0)
    ensures r.Some? ==> ValidServiceName(r.value.0) && Unpadded(r.value.0)
  {
    var r := Attempts(NameOf, lines);
    if r.Some? then
      ServiceNameUnpadded(r.value.0);
      r
    else r
  }

  // ---------------------------------------------------------------------------
  // Asking again

  /** Asking until `check` accepts a line: the value of the first accepted line
      and how many lines were read, or `None` when the input ends first. */
  function Attempts<T>(check: string -> Option<T>, lines: seq<string>): (r: Option<(T, nat)>)
    ensures r.Some? ==> 1 <= r.value.1 <= |lines| && check(lines[r.value.1 - 1]) == Some(r.value.0)
    ensures r.Some? ==> forall j :: 0 <= j < r.value.1 - 1 ==> check(lines[j]).None?
    ensures r.None? <==> forall j :: 0 <= j < |lines| ==> check(lines[j]).None?
  {
    if |lines| == 0 then None
    else
      match check(lines[0])
      case Some(v) => Some((v, 1))
      case None =>
        match Attempts(check, lines[1..])
        case None => None
        case Some((v, n)) => Some((v, n + 1))
  }

  /** Lines refused before the accepted one are skipped; once a line is
      accepted nothing after it is read. */
  lemma {:induction false} AttemptsSkipRefused<T>(check: string -> Option<T>, refused: seq<string>, rest: seq<string>)
    requires forall j :: 0 <= j < |refused| ==> check(refused[j]).None?
    ensures Attempts(check, refused + rest)
         == match Attempts(check, rest)
            case None => None
            case Some((v, n)) => Some((v, n + |refused|))
    decreases |refused|
  {
    if |refused| > 0 {
      var all := refused + rest;
      assert all[0] == refused[0] && all[1..] == refused[1..] + rest;
      AttemptsSkipRefused(check, refused[1..], rest);
      var tail := Attempts(check, all[1..]);
      assert Attempts(check, all) == match tail case None => None case Some((v, n)) => Some((v, n + 1));
    } else {
      assert refused + rest == rest;
    }
  }
}

/** The three parsers of the health monitor: they read the text printed by
    `uptime`, `df -h` and `free -m` on a remote host. Each one returns a
    default value instead of failing on text it cannot read. */
module Parsers {
  import opened Wrappers
  import opened PyText

  // ---------------------------------------------------------------------------
  // uptime

  const LoadToken: string := "load average:"

  /** The uptime summary: the three load averages and the text before them. */
  datatype Uptime = Uptime(load1: Number, load5: Number, load15: Number, uptimeString: string)

  /** The result for empty or unreadable output: integer zeros and "Unknown". */
  const UnknownUptime := Uptime(Int(0), Int(0), Int(0), "Unknown")

  /** The comma fields that follow the first `load average:`, or three "0"
      fields when the output has no such token. */
  function LoadFields(parts: seq<string>): seq<string>
    requires |parts| >= 1
  {
    if |parts| > 1 then SplitOn(Strip(parts[1]), ",") else ["0", "0", "0"]
  }

  /** Reads the first three fields as floats, or gives the default when there
      are fewer than three or one of them is not a number. */
  function ReadLoads(fields: seq<string>, text: string): (u: Uptime)
    ensures |fields| < 3 ==> u == UnknownUptime
    ensures |fields| >= 3 ==>
      (u != UnknownUptime <==>
         ParseFloat(Strip(fields[0])).Some? && ParseFloat(Strip(fields[1])).Some? && ParseFloat(Strip(fields[2])).Some?)
    ensures u != UnknownUptime ==>
      && u.load1 == Float(ParseFloat(Strip(fields[0])).value)
      && u.load5 == Float(ParseFloat(Strip(fields[1])).value)
      && u.load15 == Float(ParseFloat(Strip(fields[2])).value)
      && u.uptimeString == text
  {
    if |fields| < 3 then UnknownUptime
    else LoadsOf(ParseFloat(Strip(fields[0])), ParseFloat(Strip(fields[1])), ParseFloat(Strip(fields[2])), text)
  }

  /** The three parsed loads, or the default when one of them failed. */
  function LoadsOf(a: Option<real>, b: Option<real>, c: Option<real>, text: string): (u: Uptime)
    ensures u != UnknownUptime <==> a.Some? && b.Some? && c.Some?
  {
    if a.Some? && b.Some? && c.Some? then Uptime(Float(a.value), Float(b.value), Float(c.value), text)
    else UnknownUptime
  }

  /** Parses the output of `uptime`. */
  function ParseUptime(output: string): (u: Uptime)
    ensures output == "" ==> u == UnknownUptime
    ensures u == UnknownUptime
         || (u.load1.Float? && u.load5.Float? && u.load15.Float?
             && u.uptimeString == Strip(SplitOn(output, LoadToken)[0]))
  {
    if output == "" then UnknownUptime
    else
      var parts := SplitOn(output, LoadToken);
      ReadLoads(LoadFields(parts), Strip(parts[0]))
  }

  /** Output without `load average:` reads as three float zeros, and the whole
      stripped output becomes the uptime text. */
  lemma UptimeWithoutToken(output: string)
    requires output != "" && !Contains(output, LoadToken)
    ensures ParseUptime(output) == Uptime(Float(0.0), Float(0.0), Float(0.0), Strip(output))
  {
    SplitOnAbsent(output, LoadToken);
    assert ShowNat(0) == "0";
    ParseIntShowNat(0);
    StripUnpadded("0");
    ParseFloatOfInt("0");
  }

  /** The line `uptime` prints: `pre`, the token, then the three averages. */
  function UptimeLine(pre: string, a: string, b: string, c: string): string {
    pre + LoadToken + LoadList(a, b, c)
  }

  /** The averages as `uptime` lists them after the token. */
  function LoadList(a: string, b: string, c: string): string {
    " " + (a + ", " + b + ", " + c)
  }

  /** Parsing a rendered uptime line gives back the three averages and the
      stripped text before the token, for averages written as unpadded digits
      and dots (as `uptime` writes them, see `CentisFacts`); the clock, "up"
      and the user count before the token never contain the letter `l`. */
  lemma UptimeOfLine(pre: string, a: string, b: string, c: string)
    requires 'l' !in pre
    requires NumeralText(a) && NumeralText(b) && NumeralText(c)
    requires Unpadded(a) && Unpadded(b) && Unpadded(c) && |a| > 0 && |c| > 0
    requires ParseFloat(a).Some? && ParseFloat(b).Some? && ParseFloat(c).Some?
    ensures ParseUptime(UptimeLine(pre, a, b, c))
         == Uptime(Float(ParseFloat(a).value), Float(ParseFloat(b).value), Float(ParseFloat(c).value), Strip(pre))
  {
    var rest := LoadList(a, b, c);
    LoadsHaveNoToken(a, b, c);
    IndexOfAfter(pre, LoadToken, rest);
    SplitOnAbsent(rest, LoadToken);
    UptimeAfterToken(pre, rest);
    LoadsStrip(a, b, c);
    CommaFields(a, b, c);
    ReadThreeLoads(a, b, c, Strip(pre));
  }

  /** The same round trip for a line with more comma fields after the third
      average: they are split off and never read. */
  lemma UptimeOfLongLine(pre: string, a: string, b: string, c: string, more: string)
    requires 'l' !in pre && 'l' !in more && Unpadded(more) && |more| > 0
    requires NumeralText(a) && NumeralText(b) && NumeralText(c)
    requires Unpadded(a) && Unpadded(b) && Unpadded(c) && |a| > 0 && |c| > 0
    requires ParseFloat(a).Some? && ParseFloat(b).Some? && ParseFloat(c).Some?
    ensures ParseUptime(UptimeLine(pre, a, b, c) + "," + more)
         == Uptime(Float(ParseFloat(a).value), Float(ParseFloat(b).value), Float(ParseFloat(c).value), Strip(pre))
  {
    LongLoadsPrefix(pre, a, b, c, more);
    LongLoadFields(a, b, c, more);
    ReadLoadsIgnoresExtra([a, " " + b, " " + c], SplitOn(more, ","), Strip(pre));
    ReadThreeLoads(a, b, c, Strip(pre));
  }

  lemma LongLoadsPrefix(pre: string, a: string, b: string, c: string, more: string)
    requires 'l' !in pre && 'l' !in more
    requires NumeralText(a) && NumeralText(b) && NumeralText(c)
    ensures ParseUptime(UptimeLine(pre, a, b, c) + "," + more)
         == ReadLoads(SplitOn(Strip(LoadList(a, b, c) + "," + more), ","), Strip(pre))
  {
    var rest := LoadList(a, b, c) + "," + more;
    assert UptimeLine(pre, a, b, c) + "," + more == pre + LoadToken + rest;
    NumeralTextExcludes(a, 'l');
    NumeralTextExcludes(b, 'l');
    NumeralTextExcludes(c, 'l');
    assert 'l' !in rest;
    NotContainsFirst(rest, LoadToken);
    IndexOfAfter(pre, LoadToken, rest);
    SplitOnAbsent(rest, LoadToken);
    UptimeAfterToken(pre, rest);
  }

  lemma LongLoadFields(a: string, b: string, c: string, more: string)
    requires NumeralText(a) && NumeralText(b) && NumeralText(c)
    requires Unpadded(a) && Unpadded(more) && |a| > 0 && |more| > 0
    ensures SplitOn(Strip(LoadList(a, b, c) + "," + more), ",") == [a, " " + b, " " + c] + SplitOn(more, ",")
  {
    LongLoadsStrip(a, b, c, more);
    SplitOnConcat(a + ", " + b + ", " + c, ',', more);
    CommaFields(a, b, c);
  }

  lemma LongLoadsStrip(a: string, b: string, c: string, more: string)
    requires Unpadded(a) && Unpadded(more) && |a| > 0 && |more| > 0
    ensures Strip(LoadList(a, b, c) + "," + more) == (a + ", " + b + ", " + c) + [','] + more
  {
    var x := (a + ", " + b + ", " + c) + [','] + more;
    assert LoadList(a, b, c) + "," + more == " " + x + "";
    StripIgnoresPadding(" ", x, "");
    assert x[0] == a[0] && x[|x| - 1] == more[|more| - 1];
    StripUnpadded(x);
  }

  /** What the round trip needs to know about a numeral `w.f`. */
  lemma DecimalFacts(w: string, f: string)
    requires IsDigitString(w) && OnlyDigits(f)
    ensures NumeralText(w + "." + f) && Unpadded(w + "." + f) && |w + "." + f| > 0
    ensures ParseFloat(w + "." + f) == Some(DecimalValue(w, f))
  {
    DecimalNumeral(w, f);
    DecimalUnpadded(w, f);
    ParseFloatDecimal(w, f);
  }

  /** When the first `load average:` follows `pre`, the uptime text is `pre`
      stripped and the load fields are the comma fields of what follows the
      token, up to a second token if there is one. */
  lemma UptimeAfterToken(pre: string, rest: string)
    requires IndexOf(pre + LoadToken + rest, LoadToken) == Some(|pre|)
    ensures ParseUptime(pre + LoadToken + rest)
         == ReadLoads(SplitOn(Strip(SplitOn(rest, LoadToken)[0]), ","), Strip(pre))
  {
    var out := pre + LoadToken + rest;
    assert |out| >= |LoadToken|;
    SplitOnAt(pre, LoadToken, rest);
    UptimeOfParts(out, pre, SplitOn(rest, LoadToken));
  }

  lemma UptimeOfParts(out: string, pre: string, after: seq<string>)
    requires out != "" && |after| >= 1 && SplitOn(out, LoadToken) == [pre] + after
    ensures ParseUptime(out) == ReadLoads(SplitOn(Strip(after[0]), ","), Strip(pre))
  {
    assert SplitOn(out, LoadToken)[1] == after[0];
  }

  /** Any output holding the token: the text before its first occurrence and
      the comma fields after it decide the result, as `ReadLoads` states. */
  lemma UptimeOfOutput(output: string)
    requires Contains(output, LoadToken)
    ensures var i := IndexOf(output, LoadToken).value;
      ParseUptime(output)
        == ReadLoads(SplitOn(Strip(SplitOn(output[i + |LoadToken|..], LoadToken)[0]), ","), Strip(output[..i]))
  {
    var i := IndexOf(output, LoadToken).value;
    CutAtOccurrence(output, LoadToken, i);
    UptimeAfterToken(output[..i], output[i + |LoadToken|..]);
  }

  /** Fields after the third are never read. */
  lemma ReadLoadsIgnoresExtra(fields: seq<string>, extra: seq<string>, text: string)
    requires |fields| >= 3
    ensures ReadLoads(fields + extra, text) == ReadLoads(fields, text)
  {
    var all := fields + extra;
    assert all[0] == fields[0] && all[1] == fields[1] && all[2] == fields[2];
  }

  /** Three fields, each an unpadded number after optional leading blanks,
      read as floats. */
  lemma ReadThreeLoads(a: string, b: string, c: string, text: string)
    requires Unpadded(a) && Unpadded(b) && Unpadded(c)
    requires ParseFloat(a).Some? && ParseFloat(b).Some? && ParseFloat(c).Some?
    ensures ReadLoads([a, " " + b, " " + c], text)
         == Uptime(Float(ParseFloat(a).value), Float(ParseFloat(b).value), Float(ParseFloat(c).value), text)
  {
    StripUnpadded(a);
    StripBlankPrefix(b);
    StripBlankPrefix(c);
  }

  lemma StripBlankPrefix(b: string)
    requires Unpadded(b)
    ensures Strip(" " + b) == b
  {
    StripIgnoresPadding(" ", b, "");
    assert " " + b + "" == " " + b;
    StripUnpadded(b);
  }

  /** Text made only of digits and dots. */
  predicate NumeralText(s: string) {
    forall i :: 0 <= i < |s| ==> IsDigit(s[i]) || s[i] == '.'
  }

  lemma NumeralTextConcat(x: string, y: string)
    requires NumeralText(x) && NumeralText(y)
    ensures NumeralText(x + y)
  {
    forall i | 0 <= i < |x + y| ensures IsDigit((x + y)[i]) || (x + y)[i] == '.' {
      if i < |x| { assert (x + y)[i] == x[i]; } else { assert (x + y)[i] == y[i - |x|]; }
    }
  }

  lemma NumeralTextExcludes(s: string, ch: char)
    requires NumeralText(s) && !IsDigit(ch) && ch != '.'
    ensures ch !in s
  {
  }

  lemma DecimalNumeral(w: string, f: string)
    requires OnlyDigits(w) && OnlyDigits(f)
    ensures NumeralText(w + "." + f)
  {
    assert NumeralText(w);
    assert NumeralText(".");
    assert NumeralText(f);
    NumeralTextConcat(w, ".");
    NumeralTextConcat(w + ".", f);
  }

  lemma CentisNumeral(n: nat)
    ensures NumeralText(ShowCentis(n))
  {
    ShowCentisParts(n);
    DecimalNumeral(ShowNat(n / 100), TwoDigits(n % 100));
  }

  /** What the uptime round trip needs to know about a two-decimal rendering. */
  lemma CentisFacts(n: nat)
    ensures NumeralText(ShowCentis(n)) && Unpadded(ShowCentis(n)) && |ShowCentis(n)| > 0
    ensures ParseFloat(ShowCentis(n)) == Some(n as real / 100.0)
  {
    CentisNumeral(n);
    CentisUnpadded(n);
    ParseFloatShowCentis(n);
  }

  lemma CentisUnpadded(n: nat)
    ensures Unpadded(ShowCentis(n)) && |ShowCentis(n)| > 0
  {
    ShowCentisParts(n);
    DecimalUnpadded(ShowNat(n / 100), TwoDigits(n % 100));
  }

  /** The token cannot occur among the averages. */
  lemma LoadsHaveNoToken(a: string, b: string, c: string)
    requires NumeralText(a) && NumeralText(b) && NumeralText(c)
    ensures !Contains(LoadList(a, b, c), LoadToken)
  {
    NumeralTextExcludes(a, 'l');
    NumeralTextExcludes(b, 'l');
    NumeralTextExcludes(c, 'l');
    var s := LoadList(a, b, c);
    assert 'l' !in s;
    NotContainsFirst(s, LoadToken);
  }

  /** `strip` removes the blank after the token and nothing else. */
  lemma LoadsStrip(a: string, b: string, c: string)
    requires Unpadded(a) && Unpadded(c) && |a| > 0 && |c| > 0
    ensures Strip(LoadList(a, b, c)) == a + ", " + b + ", " + c
  {
    var x := a + ", " + b + ", " + c;
    StripIgnoresPadding(" ", x, "");
    assert " " + x + "" == " " + x;
    assert x[0] == a[0] && x[|x| - 1] == c[|c| - 1];
    StripUnpadded(x);
  }

  /** Splitting the three averages on commas gives them back, the last two
      with their leading blank. */
  lemma CommaFields(a: string, b: string, c: string)
    requires NumeralText(a) && NumeralText(b) && NumeralText(c)
    ensures SplitOn(a + ", " + b + ", " + c, ",") == [a, " " + b, " " + c]
  {
    NumeralTextExcludes(a, ',');
    NumeralTextExcludes(b, ',');
    NumeralTextExcludes(c, ',');
    CommaList(a, b, c);
    SplitThree(a, " " + b, " " + c, ',');
  }

  lemma CommaList(a: string, b: string, c: string)
    ensures a + ", " + b + ", " + c == a + [','] + ((" " + b) + [','] + (" " + c))
  {
    assert ", " + b == [','] + (" " + b);
    assert ", " + c == [','] + (" " + c);
  }

  lemma SplitThree(a: string, b: string, c: string, sep: char)
    requires sep !in a && sep !in b && sep !in c
    ensures SplitOn(a + [sep] + (b + [sep] + c), [sep]) == [a, b, c]
  {
    SplitOnConcat(a, sep, b + [sep] + c);
    SplitOnConcat(b, sep, c);
    NotContainsChar(a, sep);
    NotContainsChar(b, sep);
    NotContainsChar(c, sep);
  }

  // ---------------------------------------------------------------------------
  // df -h

  /** One mounted file system, every field as `df` printed it, except that the
      use percentage has lost its `%` signs. */
  datatype DiskEntry = DiskEntry(filesystem: string, size: string, used: string,
                                 available: string, usePercent: string, mountedOn: string)

  /** Reads one line of `df -h` output after the header. Blank lines, lines
      that start with `tmpfs` or `udev` (tested on the line as printed, before
      any stripping) and lines with fewer than six fields give nothing. */
  function DiskLine(line: string): (r: Option<DiskEntry>)
    ensures r.Some? ==> NoSpace(r.value.filesystem) && NoSpace(r.value.mountedOn)
                        && NoSpace(r.value.usePercent)
                        && (r.value.usePercent == [] || r.value.usePercent[|r.value.usePercent| - 1] != '%')
  {
    if Strip(line) != [] && !("tmpfs" <= line) && !("udev" <= line) then
      var parts := SplitWhitespace(line);
      if |parts| >= 6 then
        var pct := RStripChar(parts[4], '%');
        assert forall i :: 0 <= i < |pct| ==> pct[i] == parts[4][i];
        Some(DiskEntry(parts[0], parts[1], parts[2], parts[3], pct, parts[5]))
      else None
    else None
  }

  /** The values `read` finds in `lines`, in the order of the lines; lines it
      rejects contribute nothing. */
  function Collect<T>(read: string -> Option<T>, lines: seq<string>): (r: seq<T>)
    ensures |r| <= |lines|
  {
    if |lines| == 0 then [] else Found(read(lines[0])) + Collect(read, lines[1..])
  }

  function Found<T>(o: Option<T>): (r: seq<T>)
    ensures |r| <= 1
  {
    match o
    case Some(v) => [v]
    case None => []
  }

  /** Lines are read one at a time: collecting from two runs of lines gives
      the values of the first run followed by those of the second. */
  lemma {:induction false} CollectAppend<T>(read: string -> Option<T>, a: seq<string>, b: seq<string>)
    ensures Collect(read, a + b) == Collect(read, a) + Collect(read, b)
    decreases |a|
  {
    if |a| == 0 {
      assert a + b == b;
    } else {
      CollectAppend(read, a[1..], b);
      assert (a + b)[1..] == a[1..] + b;
      assert (a + b)[0] == a[0];
      var x, p, q := Found(read(a[0])), Collect(read, a[1..]), Collect(read, b);
      assert Collect(read, a + b) == x + (p + q);
      assert Collect(read, a) == x + p;
      assert x + (p + q) == (x + p) + q;
    }
  }

  lemma CollectOne<T>(read: string -> Option<T>, line: string)
    ensures Collect(read, [line]) == Found(read(line))
  {
    assert [line][1..] == [];
  }

  /** The entries of the given lines, in order. */
  function DiskEntries(lines: seq<string>): seq<DiskEntry> {
    Collect(DiskLine, lines)
  }

  /** Parses the output of `df -h`: the first line is the header. */
  function DiskUsage(output: string): seq<DiskEntry> {
    if output == "" then [] else DiskEntries(SplitOn(output, "\n")[1..])
  }

  /** The loop that builds the list of disks. */
  method ParseDiskUsage(output: string) returns (disks: seq<DiskEntry>)
    ensures disks == DiskUsage(output)
  {
    disks := [];
    if output == "" {
      return;
    }
    var lines := SplitOn(output, "\n")[1..];
    for k := 0 to |lines|
      invariant disks == DiskEntries(lines[..k])
    {
      var line := lines[k];
      DiskEntriesStep(lines, k);
      var entry := DiskLine(line);
      if entry.Some? {
        disks := disks + [entry.value];
      }
    }
    assert lines[..|lines|] == lines;
  }

  lemma DiskEntriesStep(lines: seq<string>, k: nat)
    requires k < |lines|
    ensures DiskEntries(lines[..k + 1]) == DiskEntries(lines[..k]) + Found(DiskLine(lines[k]))
  {
    assert lines[..k + 1] == lines[..k] + [lines[k]];
    CollectAppend(DiskLine, lines[..k], [lines[k]]);
    CollectOne(DiskLine, lines[k]);
  }

  /** Exactly which lines describe a disk. */
  lemma DiskLineKept(line: string)
    ensures DiskLine(line).Some?
        <==> !AllSpace(line) && !("tmpfs" <= line) && !("udev" <= line) && |SplitWhitespace(line)| >= 6
  {
    StripAllSpace(line);
  }

  /** The header line is skipped whatever it says. */
  lemma DiskUsageSkipsHeader(header: string, body: string)
    requires '\n' !in header
    ensures DiskUsage(header + "\n" + body) == DiskEntries(SplitOn(body, "\n"))
  {
    var out := header + "\n" + body;
    assert out == header + ['\n'] + body;
    SplitOnConcat(header, '\n', body);
    NotContainsChar(header, '\n');
    assert |out| > 0;
  }

  /** The line `df -h` prints for a file system. */
  function DfRow(e: DiskEntry): string {
    JoinWords(DfFields(e))
  }

  function DfFields(e: DiskEntry): seq<string> {
    [e.filesystem, e.size, e.used, e.available, e.usePercent + "%", e.mountedOn]
  }

  /** An entry `df` could print: fields without whitespace, all but the
      percentage non-empty, and the percentage not ending in `%`. */
  predicate Printable(e: DiskEntry) {
    && e.filesystem != [] && e.size != [] && e.used != [] && e.available != [] && e.mountedOn != []
    && NoSpace(e.filesystem) && NoSpace(e.size) && NoSpace(e.used) && NoSpace(e.available)
    && NoSpace(e.usePercent) && NoSpace(e.mountedOn)
    && (e.usePercent == [] || e.usePercent[|e.usePercent| - 1] != '%')
  }

  /** A file system that is neither tmpfs nor udev. */
  predicate Listed(e: DiskEntry) {
    !("tmpfs" <= e.filesystem) && !("udev" <= e.filesystem)
  }

  lemma DfFieldsWords(e: DiskEntry)
    requires Printable(e)
    ensures forall i :: 0 <= i < |DfFields(e)| ==> DfFields(e)[i] != [] && NoSpace(DfFields(e)[i])
    ensures SplitWhitespace(DfRow(e)) == DfFields(e)
  {
    var p := e.usePercent + "%";
    assert NoSpace("%");
    assert forall i :: 0 <= i < |p| ==> p[i] == (if i < |e.usePercent| then e.usePercent[i] else '%');
    SplitWhitespaceJoin(DfFields(e));
  }

  /** The row starts with the file system name followed by a blank. */
  lemma DfRowStart(e: DiskEntry)
    requires Printable(e)
    ensures DfRow(e) == e.filesystem + (" " + JoinWords(DfFields(e)[1..]))
  {
  }

  /** A printed row reads back as the entry it came from, unless it is a tmpfs
      or udev row, which is dropped. */
  lemma DiskLineOfRow(e: DiskEntry)
    requires Printable(e)
    ensures DiskLine(DfRow(e)) == if Listed(e) then Some(e) else None
  {
    assert NoSpace("tmpfs") && NoSpace("udev");
    RowPrefix("tmpfs", e);
    RowPrefix("udev", e);
    if Listed(e) {
      RowNotBlank(e);
      DfFieldsWords(e);
      RStripCharAppended(e.usePercent, '%');
      DiskLineAs(DfRow(e), e);
    }
  }

  /** A line that passes the filters and splits into the fields of `e` reads
      back as `e`. */
  lemma DiskLineAs(line: string, e: DiskEntry)
    requires Strip(line) != [] && !("tmpfs" <= line) && !("udev" <= line)
    requires SplitWhitespace(line) == DfFields(e) && RStripChar(e.usePercent + "%", '%') == e.usePercent
    ensures DiskLine(line) == Some(e)
  {
    DiskLineRead(line);
  }

  /** A line that passes the filters and has six words is read word by word. */
  lemma DiskLineRead(line: string)
    requires Strip(line) != [] && !("tmpfs" <= line) && !("udev" <= line)
    requires |SplitWhitespace(line)| >= 6
    ensures var p := SplitWhitespace(line);
      DiskLine(line) == Some(DiskEntry(p[0], p[1], p[2], p[3], RStripChar(p[4], '%'), p[5]))
  {
  }

  /** The tmpfs and udev test looks at the line as printed: an indented row is
      read even when it describes a tmpfs or udev file system. */
  lemma DiskLineIndented(pad: string, e: DiskEntry)
    requires pad != [] && AllSpace(pad) && Printable(e)
    ensures DiskLine(pad + DfRow(e)) == Some(e)
  {
    var line := pad + DfRow(e);
    DfFieldsWords(e);
    SplitWhitespaceSpacePrefix(pad, DfRow(e));
    assert line[0] == pad[0];
    assert !("tmpfs" <= line) && !("udev" <= line);
    RowNotBlank(e);
    StripAllSpace(DfRow(e));
    assert line[|pad|] == DfRow(e)[0];
    StripAllSpace(line);
    DiskLineRead(line);
    RStripCharAppended(e.usePercent, '%');
  }

  /** Whether the row starts with a word is decided by the file system name. */
  lemma RowPrefix(p: string, e: DiskEntry)
    requires Printable(e) && NoSpace(p)
    ensures p <= DfRow(e) <==> p <= e.filesystem
  {
    DfRowStart(e);
    PrefixStopsAtSpace(p, e.filesystem, " " + JoinWords(DfFields(e)[1..]));
  }

  lemma RowNotBlank(e: DiskEntry)
    requires Printable(e)
    ensures Strip(DfRow(e)) != []
  {
    DfRowStart(e);
    NotAllSpace(DfRow(e), e.filesystem[0]);
    StripAllSpace(DfRow(e));
  }

  /** The table `df -h` prints: a header line, then one row per entry. */
  function DfTable(header: string, es: seq<DiskEntry>): string {
    Join([header] + DfRows(es), "\n")
  }

  function DfRows(es: seq<DiskEntry>): (rows: seq<string>)
    ensures |rows| == |es|
    ensures forall i :: 0 <= i < |es| ==> rows[i] == DfRow(es[i])
  {
    if |es| == 0 then [] else [DfRow(es[0])] + DfRows(es[1..])
  }

  /** The entries other than tmpfs and udev, in order. */
  function ListedOnly(es: seq<DiskEntry>): (r: seq<DiskEntry>)
    ensures |r| <= |es|
    ensures forall i :: 0 <= i < |r| ==> Listed(r[i]) && r[i] in es
  {
    if |es| == 0 then []
    else (if Listed(es[0]) then [es[0]] else []) + ListedOnly(es[1..])
  }

  /** Parsing a printed table gives back every entry except the tmpfs and
      udev ones, in the order they were printed. */
  lemma DiskUsageOfTable(header: string, es: seq<DiskEntry>)
    requires '\n' !in header
    requires forall i :: 0 <= i < |es| ==> Printable(es[i])
    ensures DiskUsage(DfTable(header, es)) == ListedOnly(es)
  {
    var rows := DfRows(es);
    var parts := [header] + rows;
    forall i | 0 <= i < |parts| ensures '\n' !in parts[i] {
      if i > 0 {
        RowHasNoNewline(es[i - 1]);
      }
    }
    SplitOnJoinInverse(parts, '\n');
    assert parts[1..] == rows;
    DiskEntriesOfRows(es);
    if |es| > 0 {
      assert Join(parts, "\n") == header + "\n" + Join(parts[1..], "\n");
    }
  }

  lemma {:induction false} DiskEntriesOfRows(es: seq<DiskEntry>)
    requires forall i :: 0 <= i < |es| ==> Printable(es[i])
    ensures DiskEntries(DfRows(es)) == ListedOnly(es)
    decreases |es|
  {
    if |es| > 0 {
      DiskEntriesOfRows(es[1..]);
      DiskLineOfRow(es[0]);
      assert DfRows(es)[1..] == DfRows(es[1..]);
    }
  }

  lemma RowHasNoNewline(e: DiskEntry)
    requires Printable(e)
    ensures '\n' !in DfRow(e)
  {
    DfFieldsWords(e);
    WordsHaveNoNewline(DfFields(e));
  }

  lemma {:induction false} WordsHaveNoNewline(words: seq<string>)
    requires forall i :: 0 <= i < |words| ==> NoSpace(words[i])
    ensures '\n' !in JoinWords(words)
    decreases |words|
  {
    assert IsSpace('\n');
    if |words| > 1 {
      WordsHaveNoNewline(words[1..]);
      assert '\n' !in words[0];
    } else if |words| == 1 {
      assert '\n' !in words[0];
    }
  }

  lemma NotAllSpace(s: string, c: char)
    requires |s| > 0 && s[0] == c && !IsSpace(c)
    ensures !AllSpace(s)
  {
  }

  // ---------------------------------------------------------------------------
  // free -m

  const MemoryTotal: string := "memory_total"
  const MemoryUsed: string := "memory_used"
  const MemoryFree: string := "memory_free"
  const MemoryAvailable: string := "memory_available"
  const SwapTotal: string := "swap_total"
  const SwapUsed: string := "swap_used"
  const SwapFree: string := "swap_free"
  const MemoryPercent: string := "memory_usage_percent"

  /** The four memory figures, the available one defaulting to 0 when the
      line has no seventh field. */
  function MemoryFigures(total: int, used: int, free: int, available: int): map<string, Number> {
    map[MemoryTotal := Int(total), MemoryUsed := Int(used), MemoryFree := Int(free),
        MemoryAvailable := Int(available)]
  }

  function SwapFigures(total: int, used: int, free: int): map<string, Number> {
    map[SwapTotal := Int(total), SwapUsed := Int(used), SwapFree := Int(free)]
  }

  /** The percentage of memory in use, rounded to two decimals; it is only
      added when the total is positive. */
  function WithPercent(m: map<string, Number>, total: int, used: int): map<string, Number> {
    if total > 0 then m[MemoryPercent := Float(Round2(used as real / total as real * 100.0))] else m
  }

  /** The swap figures of a `Swap:` line with at least four fields, none for a
      shorter line, and a failure when one of them is not an integer. */
  function SwapPart(swap: seq<string>): Option<map<string, Number>> {
    if |swap| < 4 then Some(map[])
    else
      match (ParseInt(swap[1]), ParseInt(swap[2]), ParseInt(swap[3]))
      case (Some(t), Some(u), Some(f)) => Some(SwapFigures(t, u, f))
      case _ => None
  }

  /** The total, used, free and available figures of a `Mem:` line with at
      least four fields; the available one defaults to 0 when the line has no
      seventh field. */
  function MemPart(mem: seq<string>): Option<(int, int, int, int)> {
    if |mem| < 4 then None
    else
      match (ParseInt(mem[1]), ParseInt(mem[2]), ParseInt(mem[3]),
             if |mem| > 6 then ParseInt(mem[6]) else Some(0))
      case (Some(total), Some(used), Some(free), Some(available)) => Some((total, used, free, available))
      case _ => None
  }

  /** The dictionary built from parsed figures. */
  function Assemble(f: (int, int, int, int), sw: map<string, Number>): map<string, Number> {
    WithPercent(MemoryFigures(f.0, f.1, f.2, f.3) + sw, f.0, f.1)
  }

  /** The figures of the `Mem:` and `Swap:` field lists, or the empty
      dictionary when the `Mem:` line is too short or a figure is not an
      integer. */
  function MemoryOfFields(mem: seq<string>, swap: seq<string>): map<string, Number> {
    match (MemPart(mem), SwapPart(swap))
    case (Some(f), Some(sw)) => Assemble(f, sw)
    case _ => map[]
  }

  /** Parses the output of `free -m`: the second line holds the memory
      figures, the third the swap figures; anything after is ignored. */
  function MemoryUsage(output: string): (m: map<string, Number>)
    ensures m == map[] || {MemoryTotal, MemoryUsed, MemoryFree, MemoryAvailable} <= m.Keys
  {
    if output == "" then map[]
    else
      var lines := SplitOn(output, "\n");
      if |lines| < 3 then map[]
      else MemoryOfFields(SplitWhitespace(lines[1]), SplitWhitespace(lines[2]))
  }

  /** The parser as the program runs it: the output is split into lines and
      the second and third are handed to `BuildMemory`. */
  method ParseMemoryUsage(output: string) returns (data: map<string, Number>)
    ensures data == MemoryUsage(output)
  {
    data := map[];
    if output == "" {
      return;
    }
    var lines := SplitOn(output, "\n");
    if |lines| < 3 {
      return;
    }
    data := BuildMemory(SplitWhitespace(lines[1]), SplitWhitespace(lines[2]));
  }

  /** The dictionary is built from the memory figures, then updated with the
      swap figures and the percentage; a figure that is not an integer
      abandons it for the empty dictionary. */
  method BuildMemory(mem: seq<string>, swap: seq<string>) returns (data: map<string, Number>)
    ensures data == MemoryOfFields(mem, swap)
  {
    data := map[];
    MemoryOfParts(mem, swap);
    match MemPart(mem)
    case None =>
    case Some((total, used, free, available)) =>
      var d := MemoryFigures(total, used, free, available);
      match SwapPart(swap)
      case None =>
      case Some(sw) =>
        d := d + sw;
        data := AddPercent(d, total, used);
  }

  /** The percentage step of `BuildMemory`. */
  method AddPercent(d: map<string, Number>, total: int, used: int) returns (r: map<string, Number>)
    ensures r == WithPercent(d, total, used)
  {
    r := d;
    if total > 0 {
      r := r[MemoryPercent := Float(Round2(used as real / total as real * 100.0))];
    }
  }

  lemma MemoryOfParts(mem: seq<string>, swap: seq<string>)
    ensures MemPart(mem).None? || SwapPart(swap).None? ==> MemoryOfFields(mem, swap) == map[]
    ensures MemPart(mem).Some? && SwapPart(swap).Some? ==>
      MemoryOfFields(mem, swap) == Assemble(MemPart(mem).value, SwapPart(swap).value)
  {
  }

  /** Output with fewer than three lines gives the empty dictionary; otherwise
      the second and third lines, split on whitespace, decide the result. */
  lemma MemoryLines(output: string)
    ensures var lines := SplitOn(output, "\n");
      && (|lines| < 3 ==> MemoryUsage(output) == map[])
      && (|lines| >= 3 ==> MemoryUsage(output) == MemoryOfFields(SplitWhitespace(lines[1]), SplitWhitespace(lines[2])))
  {
    if output == "" {
      assert IndexOf(output, "\n").None?;
    }
  }

  /** The parse fails, giving the empty dictionary, exactly when the `Mem:`
      line has fewer than four fields, or one of the figures it reads (the
      seventh only when present, the swap figures only on a `Swap:` line of at
      least four fields) is not an integer. */
  lemma MemoryFieldsRule(mem: seq<string>, swap: seq<string>)
    ensures MemoryOfFields(mem, swap) != map[] <==>
      && |mem| >= 4
      && ParseInt(mem[1]).Some? && ParseInt(mem[2]).Some? && ParseInt(mem[3]).Some?
      && (|mem| > 6 ==> ParseInt(mem[6]).Some?)
      && (|swap| >= 4 ==> ParseInt(swap[1]).Some? && ParseInt(swap[2]).Some? && ParseInt(swap[3]).Some?)
  {
    if MemPart(mem).Some? && SwapPart(swap).Some? {
      assert MemoryTotal in MemoryOfFields(mem, swap);
    }
  }

  /** On success every figure is the integer read from its field: total, used
      and free from fields 2 to 4 of the `Mem:` line, available from field 7
      or 0 when the line is shorter, and the swap figures from fields 2 to 4 of
      a long enough `Swap:` line. */
  lemma MemoryFiguresRule(mem: seq<string>, swap: seq<string>)
    requires MemoryOfFields(mem, swap) != map[]
    ensures var m := MemoryOfFields(mem, swap);
      && |mem| >= 4
      && m[MemoryTotal] == Int(ParseInt(mem[1]).value)
      && m[MemoryUsed] == Int(ParseInt(mem[2]).value)
      && m[MemoryFree] == Int(ParseInt(mem[3]).value)
      && m[MemoryAvailable] == (if |mem| > 6 then Int(ParseInt(mem[6]).value) else Int(0))
  {
    MemoryOfParts(mem, swap);
    SwapPartKeys(swap);
    MemPartValues(mem);
    AssembleFigures(MemPart(mem).value, SwapPart(swap).value);
  }

  lemma MemPartValues(mem: seq<string>)
    requires MemPart(mem).Some?
    ensures |mem| >= 4
    ensures MemPart(mem).value == (ParseInt(mem[1]).value, ParseInt(mem[2]).value, ParseInt(mem[3]).value,
                                   if |mem| > 6 then ParseInt(mem[6]).value else 0)
  {
  }

  lemma AssembleFigures(f: (int, int, int, int), sw: map<string, Number>)
    requires sw.Keys <= {SwapTotal, SwapUsed, SwapFree}
    ensures var m := Assemble(f, sw);
      && m[MemoryTotal] == Int(f.0) && m[MemoryUsed] == Int(f.1)
      && m[MemoryFree] == Int(f.2) && m[MemoryAvailable] == Int(f.3)
  {
    assert MemoryPercent != MemoryFree && MemoryPercent != MemoryAvailable;
    assert MemoryFree !in sw && MemoryAvailable !in sw;
    AssemblePercent(f, sw);
  }

  lemma SwapFiguresRule(mem: seq<string>, swap: seq<string>)
    requires MemoryOfFields(mem, swap) != map[] && |swap| >= 4
    ensures var m := MemoryOfFields(mem, swap);
      && m[SwapTotal] == Int(ParseInt(swap[1]).value)
      && m[SwapUsed] == Int(ParseInt(swap[2]).value)
      && m[SwapFree] == Int(ParseInt(swap[3]).value)
  {
  }

  /** The swap part only ever holds the three swap keys. */
  lemma SwapPartKeys(swap: seq<string>)
    ensures SwapPart(swap).Some? ==> SwapPart(swap).value.Keys <= {SwapTotal, SwapUsed, SwapFree}
  {
  }

  lemma AssemblePercent(f: (int, int, int, int), sw: map<string, Number>)
    requires sw.Keys <= {SwapTotal, SwapUsed, SwapFree}
    ensures var m := Assemble(f, sw);
      && m[MemoryTotal] == Int(f.0) && m[MemoryUsed] == Int(f.1)
      && (MemoryPercent in m <==> f.0 > 0)
      && (MemoryPercent in m ==> m[MemoryPercent] == Float(Round2(f.1 as real / f.0 as real * 100.0)))
  {
    assert MemoryPercent !in sw && MemoryTotal !in sw && MemoryUsed !in sw;
  }

  /** The percentage is present exactly when the parse succeeded with a
      positive total, and is then within half a hundredth of the exact ratio. */
  lemma MemoryPercentRule(mem: seq<string>, swap: seq<string>)
    ensures var m := MemoryOfFields(mem, swap);
      && (m != map[] ==> m[MemoryTotal].Int? && m[MemoryUsed].Int?)
      && (MemoryPercent in m <==> m != map[] && m[MemoryTotal].i > 0)
      && (MemoryPercent in m ==>
            m[MemoryPercent].Float?
            && -0.005 <= m[MemoryPercent].f - m[MemoryUsed].i as real / m[MemoryTotal].i as real * 100.0 <= 0.005)
  {
    if MemPart(mem).Some? && SwapPart(swap).Some? {
      SwapPartKeys(swap);
      AssemblePercent(MemPart(mem).value, SwapPart(swap).value);
    }
  }

  /** The swap figures are present exactly when the parse succeeded and the
      `Swap:` line has at least four fields. */
  lemma SwapKeysRule(mem: seq<string>, swap: seq<string>)
    ensures var m := MemoryOfFields(mem, swap);
      && (SwapTotal in m <==> m != map[] && |swap| >= 4)
      && (SwapTotal in m <==> SwapUsed in m)
      && (SwapTotal in m <==> SwapFree in m)
  {
  }

  /** Only the first three lines matter. */
  lemma MemoryIgnoresLaterLines(output: string, extra: string)
    requires |SplitOn(output, "\n")| >= 3
    ensures MemoryUsage(output + "\n" + extra) == MemoryUsage(output)
  {
    var out := output + "\n" + extra;
    assert out == output + ['\n'] + extra;
    SplitOnConcat(output, '\n', extra);
    var lines, lines' := SplitOn(output, "\n"), SplitOn(out, "\n");
    assert lines'[1] == lines[1] && lines'[2] == lines[2];
    SplitOnEmpty("\n");
    assert output != "" && out != "";
  }

  /** The figures `free -m` prints on its `Mem:` and `Swap:` lines. */
  datatype MemRow = MemRow(total: nat, used: nat, free: nat, shared: nat, buffCache: nat, available: nat)
  datatype SwapRow = SwapRow(total: nat, used: nat, free: nat)

  function MemLine(m: MemRow): seq<string> {
    ["Mem:", ShowNat(m.total), ShowNat(m.used), ShowNat(m.free), ShowNat(m.shared),
     ShowNat(m.buffCache), ShowNat(m.available)]
  }

  function SwapLine(s: SwapRow): seq<string> {
    ["Swap:", ShowNat(s.total), ShowNat(s.used), ShowNat(s.free)]
  }

  /** The table `free -m` prints: a header and the two lines of figures. */
  function FreeTable(header: string, m: MemRow, s: SwapRow): string {
    Join([header, JoinWords(MemLine(m)), JoinWords(SwapLine(s))], "\n")
  }

  /** The lines of a printed table are the header and the two lines of figures. */
  lemma FreeTableLines(header: string, m: MemRow, s: SwapRow)
    requires '\n' !in header
    ensures FreeTable(header, m, s) != ""
    ensures SplitOn(FreeTable(header, m, s), "\n") == [header, JoinWords(MemLine(m)), JoinWords(SwapLine(s))]
  {
    var mem, swap := MemLine(m), SwapLine(s);
    NumeralWords(mem);
    NumeralWords(swap);
    WordsHaveNoNewline(mem);
    WordsHaveNoNewline(swap);
    SplitOnJoinInverse([header, JoinWords(mem), JoinWords(swap)], '\n');
    SplitWhitespaceJoin(mem);
    assert |FreeTable(header, m, s)| > 0;
  }

  lemma MemPartOfLine(m: MemRow)
    ensures MemPart(SplitWhitespace(JoinWords(MemLine(m)))) == Some((m.total as int, m.used as int, m.free as int, m.available as int))
  {
    NumeralWords(MemLine(m));
    SplitWhitespaceJoin(MemLine(m));
    ParseIntShowNat(m.total);
    ParseIntShowNat(m.used);
    ParseIntShowNat(m.free);
    ParseIntShowNat(m.available);
  }

  lemma SwapPartOfLine(s: SwapRow)
    ensures SwapPart(SplitWhitespace(JoinWords(SwapLine(s)))) == Some(SwapFigures(s.total, s.used, s.free))
  {
    NumeralWords(SwapLine(s));
    SplitWhitespaceJoin(SwapLine(s));
    ParseIntShowNat(s.total);
    ParseIntShowNat(s.used);
    ParseIntShowNat(s.free);
  }

  /** Parsing a printed table gives back all seven figures, and the
      percentage when the total is positive. */
  lemma MemoryOfTable(header: string, m: MemRow, s: SwapRow)
    requires '\n' !in header
    ensures MemoryUsage(FreeTable(header, m, s))
         == WithPercent(MemoryFigures(m.total, m.used, m.free, m.available)
                        + SwapFigures(s.total, s.used, s.free), m.total, m.used)
  {
    FreeTableLines(header, m, s);
    MemPartOfLine(m);
    SwapPartOfLine(s);
  }

  /** A machine using a quarter of its memory reports exactly 25.0 per cent. */
  lemma MemoryQuarterUsed(header: string, m: MemRow, s: SwapRow)
    requires '\n' !in header && m.total > 0 && m.total == 4 * m.used
    ensures var r := MemoryUsage(FreeTable(header, m, s));
      MemoryPercent in r && r[MemoryPercent] == Float(25.0)
  {
    MemoryOfTable(header, m, s);
    QuarterPercent(m.used, m.total);
  }

  lemma QuarterPercent(used: nat, total: nat)
    requires total > 0 && total == 4 * used
    ensures Round2(used as real / total as real * 100.0) == 25.0
  {
    var u := used as real;
    assert total as real == 4.0 * u;
    assert u / (4.0 * u) == 0.25;
    assert u / total as real * 100.0 == 2500 as real / 100.0;
    Round2Exact(2500);
  }

  /** A label followed by numerals: non-empty words without whitespace. */
  lemma NumeralWords(words: seq<string>)
    requires |words| > 0 && (words[0] == "Mem:" || words[0] == "Swap:")
    requires forall i :: 1 <= i < |words| ==> IsDigitString(words[i])
    ensures forall i :: 0 <= i < |words| ==> words[i] != [] && NoSpace(words[i])
  {
    assert NoSpace("Mem:") && NoSpace("Swap:");
    forall i | 1 <= i < |words| ensures NoSpace(words[i]) {
      assert forall j :: 0 <= j < |words[i]| ==> IsDigit(words[i][j]);
    }
  }
}

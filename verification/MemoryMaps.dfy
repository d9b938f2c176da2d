/** Reading `/proc/<pid>/maps`: line scanning, field splitting and hexadecimal addresses as the Go standard
    library does them, and the regions that are both writable and executable. */
module MemoryMaps {
  import opened Collections
  import opened Text

  type Address = n: nat | n < 0x1_0000_0000_0000_0000

  datatype Region = Region(start: Address, end: Address, permissions: string, path: string)

  // ---------- Lines ----------

  /** The scanner's longest line. */
  const LONGEST: nat := 65535

  /** How far the first line reaches. */
  function LineEnd(s: string): (n: nat)
    ensures n <= |s| && '\n' !in s[..n] && (n < |s| ==> s[n] == '\n')
  {
    if s == [] || s[0] == '\n' then 0 else 1 + LineEnd(s[1..])
  }

  function DropCR(line: string): string {
    if line != [] && line[|line| - 1] == '\r' then line[..|line| - 1] else line
  }

  function AfterLine(s: string): string {
    var n := LineEnd(s);
    if n < |s| then s[n + 1..] else []
  }

  // ---------- Fields ----------

  function WordEnd(s: string): (n: nat)
    ensures n <= |s| && (forall i :: 0 <= i < n ==> !IsSpace(s[i])) && (n < |s| ==> IsSpace(s[n]))
  {
    if s == [] || IsSpace(s[0]) then 0 else 1 + WordEnd(s[1..])
  }

  /** `strings.Fields`. */
  function Fields(s: string): seq<string> {
    if s == [] then []
    else if IsSpace(s[0]) then Fields(s[1..])
    else [s[..WordEnd(s)]] + Fields(s[WordEnd(s)..])
  }

  function Count(s: string, c: char): nat {
    if s == [] then 0 else (if s[0] == c then 1 else 0) + Count(s[1..], c)
  }

  function IndexOf(s: string, c: char): (n: nat)
    ensures n <= |s| && c !in s[..n] && (n < |s| ==> s[n] == c)
  {
    if s == [] || s[0] == c then 0 else 1 + IndexOf(s[1..], c)
  }

  // ---------- Hexadecimal ----------

  predicate IsHexDigit(c: char) {
    '0' <= c <= '9' || 'a' <= c <= 'f' || 'A' <= c <= 'F'
  }

  function HexDigitValue(c: char): (v: nat)
    requires IsHexDigit(c)
    ensures v < 16
  {
    if '0' <= c <= '9' then c as int - '0' as int
    else if 'a' <= c <= 'f' then c as int - 'a' as int + 10
    else c as int - 'A' as int + 10
  }

  function HexPrefix(s: string): (n: nat)
    ensures n <= |s| && (forall i :: 0 <= i < n ==> IsHexDigit(s[i])) && (n < |s| ==> !IsHexDigit(s[n]))
  {
    if s == [] || !IsHexDigit(s[0]) then 0 else 1 + HexPrefix(s[1..])
  }

  function HexValue(s: string): nat
    requires forall i :: 0 <= i < |s| ==> IsHexDigit(s[i])
  {
    if s == [] then 0 else 16 * HexValue(s[..|s| - 1]) + HexDigitValue(s[|s| - 1])
  }

  /** `Sscanf` with %x into a zeroed uint64: the leading hexadecimal digits, or zero when there are none
      or they do not fit. */
  function ScanHex(s: string): Address {
    var v := HexValue(s[..HexPrefix(s)]);
    if v < 0x1_0000_0000_0000_0000 then v else 0
  }

  // ---------- Parsing ----------

  function ParseLine(line: string): Option<Region> {
    var fields := Fields(line);
    if |fields| < 5 || Count(fields[0], '-') != 1 then None
    else
      OneDash(fields[0]);
      var dash := IndexOf(fields[0], '-');
      Some(Region(ScanHex(fields[0][..dash]), ScanHex(fields[0][dash + 1..]), fields[1],
                  if |fields| >= 6 then fields[5] else ""))
  }

  datatype Parsed = Parsed(regions: seq<Region>, tooLong: bool)

  function Found(line: string): seq<Region> {
    match ParseLine(line)
    case Some(r) => [r]
    case None => []
  }

  /** The regions of the lines up to the first that is too long for the scanner. */
  function ParseText(s: string): Parsed
    decreases |s|
  {
    if s == [] then Parsed([], false)
    else if LineEnd(s) > LONGEST then Parsed([], true)
    else
      var rest := ParseText(AfterLine(s));
      Parsed(Found(DropCR(s[..LineEnd(s)])) + rest.regions, rest.tooLong)
  }

  method ReadLine(line: string) returns (found: seq<Region>)
    ensures found == Found(line)
  {
    var fields := Fields(line);
    if |fields| < 5 {
      return [];
    }
    if Count(fields[0], '-') != 1 {
      return [];
    }
    OneDash(fields[0]);
    var dash := IndexOf(fields[0], '-');
    var start := ScanHex(fields[0][..dash]);
    var end := ScanHex(fields[0][dash + 1..]);
    var path := "";
    if |fields| >= 6 {
      path := fields[5];
    }
    found := [Region(start, end, fields[1], path)];
  }

  method ParseMaps(text: string) returns (regions: seq<Region>, tooLong: bool)
    ensures Parsed(regions, tooLong) == ParseText(text)
  {
    regions, tooLong := [], false;
    var rest := text;
    while rest != []
      invariant ParseText(text) == Parsed(regions + ParseText(rest).regions, ParseText(rest).tooLong)
      decreases |rest|
    {
      if LineEnd(rest) > LONGEST {
        tooLong := true;
        return;
      }
      var found := ReadLine(DropCR(rest[..LineEnd(rest)]));
      Regroup(regions, found, ParseText(AfterLine(rest)).regions);
      regions := regions + found;
      rest := AfterLine(rest);
    }
  }

  lemma {:induction false} OneDash(s: string)
    ensures Count(s, '-') > 0 ==> IndexOf(s, '-') < |s|
  {
    if s == [] || s[0] == '-' {
    } else {
      OneDash(s[1..]);
    }
  }

  // ---------- Rendering ----------

  function Hex(n: nat): (s: string)
    ensures |s| > 0 && forall i :: 0 <= i < |s| ==> IsHexDigit(s[i])
  {
    if n < 16 then [HexChar(n)] else Hex(n / 16) + [HexChar(n % 16)]
  }

  function HexChar(d: nat): (c: char)
    requires d < 16
    ensures IsHexDigit(c) && HexDigitValue(c) == d
  {
    if d < 10 then '0' + d as char else 'a' + (d - 10) as char
  }

  function Zeros(k: nat): (s: string)
    ensures |s| == k && forall i :: 0 <= i < k ==> s[i] == '0'
  {
    seq(k, _ => '0')
  }

  lemma {:induction false} HexValueOfHex(n: nat, pad: nat)
    ensures forall i :: 0 <= i < |Zeros(pad) + Hex(n)| ==> IsHexDigit((Zeros(pad) + Hex(n))[i])
    ensures HexValue(Zeros(pad) + Hex(n)) == n
  {
    var s := Zeros(pad) + Hex(n);
    if n < 16 {
      assert s[..|s| - 1] == Zeros(pad);
      ZerosAreZero(pad);
    } else {
      assert s[..|s| - 1] == Zeros(pad) + Hex(n / 16);
      HexValueOfHex(n / 16, pad);
    }
  }

  lemma {:induction false} ZerosAreZero(k: nat)
    ensures HexValue(Zeros(k)) == 0
  {
    if k == 0 {
    } else {
      assert Zeros(k)[..k - 1] == Zeros(k - 1);
      ZerosAreZero(k - 1);
    }
  }

  lemma {:induction false} AllHexPrefix(s: string)
    requires forall i :: 0 <= i < |s| ==> IsHexDigit(s[i])
    ensures HexPrefix(s) == |s|
  {
    if s == [] {
    } else {
      AllHexPrefix(s[1..]);
    }
  }

  lemma ScanHexOfHex(n: Address, pad: nat)
    ensures ScanHex(Zeros(pad) + Hex(n)) == n
  {
    var s := Zeros(pad) + Hex(n);
    HexValueOfHex(n, pad);
    AllHexPrefix(s);
    assert s[..|s|] == s;
  }

  lemma {:induction false} HexPrefixStops(digits: string, rest: string)
    requires forall i :: 0 <= i < |digits| ==> IsHexDigit(digits[i])
    requires rest == "" || !IsHexDigit(rest[0])
    ensures HexPrefix(digits + rest) == |digits|
  {
    if digits == "" {
      assert digits + rest == rest;
    } else {
      assert (digits + rest)[1..] == digits[1..] + rest;
      HexPrefixStops(digits[1..], rest);
    }
  }

  /** Scanning reads the digits up to the first other character, and gives zero when there are none or when
      the number needs more than 64 bits. */
  lemma ScanHexReadsPrefix(n: nat, pad: nat, rest: string)
    requires rest == "" || !IsHexDigit(rest[0])
    ensures ScanHex(rest) == 0
    ensures ScanHex(Zeros(pad) + Hex(n) + rest) == if n < 0x1_0000_0000_0000_0000 then n else 0
  {
    var digits := Zeros(pad) + Hex(n);
    HexValueOfHex(n, pad);
    HexPrefixStops(digits, rest);
    HexPrefixStops("", rest);
    assert (digits + rest)[..|digits|] == digits && "" + rest == rest;
  }

  predicate IsWord(w: string) {
    w != [] && forall i :: 0 <= i < |w| ==> !IsSpace(w[i])
  }

  /** Spaces and tabs and the like, but no line break. */
  predicate IsGap(g: string) {
    forall i :: 0 <= i < |g| ==> IsSpace(g[i]) && g[i] != '\n' && g[i] != '\r'
  }

  /** Words with the gaps that follow them. */
  function Layout(words: seq<string>, gaps: seq<string>): string
    requires |words| == |gaps|
  {
    if words == [] then [] else words[0] + gaps[0] + Layout(words[1..], gaps[1..])
  }

  /** Every word is a word, and some gap keeps it from the next. */
  predicate WellLaid(words: seq<string>, gaps: seq<string>) {
    && |words| == |gaps|
    && (forall i :: 0 <= i < |words| ==> IsWord(words[i]) && IsGap(gaps[i]))
    && (forall i :: 0 <= i < |words| - 1 ==> gaps[i] != [])
  }

  lemma {:induction false} GapsAreSkipped(g: string, s: string)
    requires forall i :: 0 <= i < |g| ==> IsSpace(g[i])
    ensures Fields(g + s) == Fields(s)
  {
    if g == [] {
      assert g + s == s;
    } else {
      assert (g + s)[1..] == g[1..] + s;
      GapsAreSkipped(g[1..], s);
    }
  }

  lemma {:induction false} WordEndOfWord(w: string, s: string)
    requires (forall i :: 0 <= i < |w| ==> !IsSpace(w[i])) && (s == [] || IsSpace(s[0]))
    ensures WordEnd(w + s) == |w|
  {
    if w == [] {
      assert w + s == s;
    } else {
      assert (w + s)[1..] == w[1..] + s;
      WordEndOfWord(w[1..], s);
    }
  }

  lemma {:induction false} FieldsOfLayout(words: seq<string>, gaps: seq<string>)
    requires WellLaid(words, gaps)
    ensures Fields(Layout(words, gaps)) == words
  {
    if words == [] {
    } else {
      var rest := Layout(words[1..], gaps[1..]);
      var s := gaps[0] + rest;
      assert Layout(words, gaps) == words[0] + s;
      FieldsOfLayout(words[1..], gaps[1..]);
      if |words| == 1 {
        assert rest == [];
        assert s == gaps[0];
      }
      WordEndOfWord(words[0], s);
      assert (words[0] + s)[..|words[0]|] == words[0] && (words[0] + s)[|words[0]|..] == s;
      GapsAreSkipped(gaps[0], rest);
    }
  }

  // ---------- Round trip ----------

  /** How a region is written: zero padding of the two bounds, the columns in between, and the gaps. */
  datatype Style = Style(pad1: nat, pad2: nat, offset: string, device: string, inode: string, gaps: seq<string>)

  /** How the two bounds are written. */
  function Range(start: Address, end: Address, pad1: nat, pad2: nat): string {
    Zeros(pad1) + Hex(start) + "-" + (Zeros(pad2) + Hex(end))
  }

  function Words(r: Region, x: Style): seq<string> {
    [Range(r.start, r.end, x.pad1, x.pad2), r.permissions, x.offset, x.device, x.inode]
      + (if r.path == "" then [] else [r.path])
  }

  /** Permissions hold no white space, nor does the path, and the style is one the kernel could choose. */
  predicate Renderable(r: Region, x: Style) {
    && IsWord(r.permissions) && (r.path == "" || IsWord(r.path))
    && WellLaid(Words(r, x), x.gaps)
  }

  function Render(r: Region, x: Style): string
    requires Renderable(r, x)
  {
    Layout(Words(r, x), x.gaps)
  }

  lemma {:induction false} NoDashCount(s: string)
    requires '-' !in s
    ensures Count(s, '-') == 0
  {
    if s == [] {
    } else {
      NoDashCount(s[1..]);
    }
  }

  lemma {:induction false} DashBetween(a: string, b: string)
    requires '-' !in a && '-' !in b
    ensures Count(a + "-" + b, '-') == 1 && IndexOf(a + "-" + b, '-') == |a|
  {
    var s := a + "-" + b;
    if a == [] {
      assert s[1..] == b;
      NoDashCount(b);
    } else {
      assert s[1..] == a[1..] + "-" + b;
      DashBetween(a[1..], b);
    }
  }

  lemma RangeScans(start: Address, end: Address, pad1: nat, pad2: nat)
    ensures var s := Range(start, end, pad1, pad2);
            var dash := IndexOf(s, '-');
            Count(s, '-') == 1 && dash < |s| && ScanHex(s[..dash]) == start && ScanHex(s[dash + 1..]) == end
  {
    var a, b := Zeros(pad1) + Hex(start), Zeros(pad2) + Hex(end);
    var s := a + "-" + b;
    HexValueOfHex(start, pad1);
    HexValueOfHex(end, pad2);
    DashBetween(a, b);
    assert s[..|a|] == a && s[|a| + 1..] == b;
    ScanHexOfHex(start, pad1);
    ScanHexOfHex(end, pad2);
  }

  lemma ParseOfFields(line: string, r: Region, pad1: nat, pad2: nat)
    requires |Fields(line)| >= 5
    requires Fields(line)[0] == Range(r.start, r.end, pad1, pad2) && Fields(line)[1] == r.permissions
    requires r.path == if |Fields(line)| >= 6 then Fields(line)[5] else ""
    ensures ParseLine(line) == Some(r)
  {
    RangeScans(r.start, r.end, pad1, pad2);
  }

  /** A rendered region parses back to itself. */
  lemma ParseRenderedLine(r: Region, x: Style)
    requires Renderable(r, x)
    ensures ParseLine(Render(r, x)) == Some(r)
  {
    FieldsOfLayout(Words(r, x), x.gaps);
    ParseOfFields(Render(r, x), r, x.pad1, x.pad2);
  }

  /** One line of a maps file: a region as the kernel could write it, or anything the parser must skip. */
  datatype Entry = Mapped(region: Region, style: Style) | Malformed(line: string)

  /** A line the parser must skip: under five fields, or not a single dash in the first. */
  predicate IsMalformed(line: string) {
    |Fields(line)| < 5 || Count(Fields(line)[0], '-') != 1
  }

  predicate Writable(e: Entry) {
    match e
    case Mapped(r, x) => Renderable(r, x)
    case Malformed(line) => '\n' !in line && IsMalformed(DropCR(line))
  }

  function LineOf(e: Entry): string
    requires Writable(e)
  {
    match e
    case Mapped(r, x) => Render(r, x)
    case Malformed(line) => line
  }

  function TextOf(entries: seq<Entry>): string
    requires forall e :: e in entries ==> Writable(e)
  {
    if entries == [] then [] else LineOf(entries[0]) + "\n" + TextOf(entries[1..])
  }

  function RegionsOf(entries: seq<Entry>): seq<Region> {
    if entries == [] then []
    else (if entries[0].Mapped? then [entries[0].region] else []) + RegionsOf(entries[1..])
  }

  lemma {:induction false} LayoutHasNoBreak(words: seq<string>, gaps: seq<string>)
    requires WellLaid(words, gaps)
    ensures '\n' !in Layout(words, gaps) && '\r' !in Layout(words, gaps)
  {
    if words == [] {
    } else {
      LayoutHasNoBreak(words[1..], gaps[1..]);
      assert forall i :: 0 <= i < |words[0]| ==> !IsSpace(words[0][i]);
      assert '\n' !in words[0] && '\r' !in words[0];
      assert '\n' !in gaps[0] && '\r' !in gaps[0];
    }
  }

  lemma {:induction false} FirstLineEnds(line: string, rest: string)
    requires '\n' !in line
    ensures LineEnd(line + "\n" + rest) == |line|
  {
    if line == [] {
    } else {
      assert (line + "\n" + rest)[1..] == line[1..] + "\n" + rest;
      FirstLineEnds(line[1..], rest);
    }
  }

  lemma ParseFirstLine(line: string, rest: string)
    requires '\n' !in line
    ensures var p := ParseText(rest);
            ParseText(line + "\n" + rest) ==
              if |line| > LONGEST then Parsed([], true) else Parsed(Found(DropCR(line)) + p.regions, p.tooLong)
  {
    var s := line + "\n" + rest;
    FirstLineEnds(line, rest);
    assert s[..|line|] == line && s[|line| + 1..] == rest;
  }

  lemma FoundInLine(e: Entry)
    requires Writable(e)
    ensures '\n' !in LineOf(e) && Found(DropCR(LineOf(e))) == RegionsOf([e])
  {
    match e
    case Mapped(r, x) =>
      LayoutHasNoBreak(Words(r, x), x.gaps);
      ParseRenderedLine(r, x);
    case Malformed(line) =>
  }

  lemma ParseFirstEntry(e: Entry, rest: string)
    requires Writable(e)
    ensures var p := ParseText(rest);
            ParseText(LineOf(e) + "\n" + rest) ==
              if |LineOf(e)| > LONGEST then Parsed([], true) else Parsed(RegionsOf([e]) + p.regions, p.tooLong)
  {
    FoundInLine(e);
    ParseFirstLine(LineOf(e), rest);
  }

  lemma RegionsOfFirst(e: Entry, rest: seq<Entry>)
    ensures RegionsOf([e] + rest) == RegionsOf([e]) + RegionsOf(rest)
  {
    assert ([e] + rest)[1..] == rest && [e][1..] == [];
  }

  /** How many lines come before the first that is too long for the scanner. */
  function Fitting(entries: seq<Entry>): (n: nat)
    requires forall e :: e in entries ==> Writable(e)
    ensures n <= |entries|
    ensures n == |entries| <==> forall i :: 0 <= i < |entries| ==> |LineOf(entries[i])| <= LONGEST
  {
    if entries == [] || |LineOf(entries[0])| > LONGEST then 0 else 1 + Fitting(entries[1..])
  }

  /** A file of well-formed and malformed lines in any order parses to exactly the regions of its
      well-formed lines, up to the first line that is too long, which is reported. */
  lemma {:induction false} ParsedLines(entries: seq<Entry>)
    requires forall e :: e in entries ==> Writable(e)
    ensures var n := Fitting(entries);
            ParseText(TextOf(entries)) == Parsed(RegionsOf(entries[..n]), n < |entries|)
  {
    if entries == [] {
    } else {
      var e, rest := entries[0], entries[1..];
      ParseFirstEntry(e, TextOf(rest));
      ParsedLines(rest);
      RegionsOfFirst(e, rest[..Fitting(rest)]);
      assert entries[..Fitting(rest) + 1] == [e] + rest[..Fitting(rest)];
    }
  }

  lemma {:induction false} FewerRegions(entries: seq<Entry>, n: nat)
    requires n <= |entries|
    ensures RegionsOf(entries) == RegionsOf(entries[..n]) + RegionsOf(entries[n..])
  {
    if n == 0 {
    } else {
      assert entries[..n][1..] == entries[1..][..n - 1] && entries[n..] == entries[1..][n - 1..];
      FewerRegions(entries[1..], n - 1);
    }
  }

  /** The round trip: rendered regions come back, and malformed lines among them change nothing, exactly
      when no line is too long; and no region is ever made up. */
  lemma MapsRoundTrip(entries: seq<Entry>)
    requires forall e :: e in entries ==> Writable(e)
    ensures ParseText(TextOf(entries)).regions <= RegionsOf(entries)
    ensures (ParseText(TextOf(entries)) == Parsed(RegionsOf(entries), false)) <==>
      forall i :: 0 <= i < |entries| ==> |LineOf(entries[i])| < 65536
  {
    ParsedLines(entries);
    FewerRegions(entries, Fitting(entries));
    assert entries[..|entries|] == entries;
  }

  // ---------- Suspicious regions ----------

  predicate IsSuspicious(r: Region) {
    'w' in r.permissions && 'x' in r.permissions
  }

  ghost predicate Increasing(at: seq<nat>) {
    forall j, k :: 0 <= j < k < |at| ==> at[j] < at[k]
  }

  /** `out` is what `rs` holds at the positions `at`, all of them suspicious. */
  ghost predicate PicksSuspicious(rs: seq<Region>, out: seq<Region>, at: seq<nat>) {
    |at| == |out| && forall k :: 0 <= k < |at| ==> at[k] < |rs| && out[k] == rs[at[k]] && IsSuspicious(out[k])
  }

  ghost predicate PicksAll(rs: seq<Region>, at: seq<nat>) {
    forall i: nat :: i < |rs| && IsSuspicious(rs[i]) ==> PickedAt(at, i)
  }

  ghost predicate PickedAt(at: seq<nat>, i: nat) {
    exists k :: 0 <= k < |at| && at[k] == i
  }

  /** `out` is what `rs` holds at the increasing positions `at`, and these are all the suspicious ones. */
  ghost predicate PicksOut(rs: seq<Region>, out: seq<Region>, at: seq<nat>) {
    Increasing(at) && PicksSuspicious(rs, out, at) && PicksAll(rs, at)
  }

  lemma PicksNext(rs: seq<Region>, n: nat, out: seq<Region>, at: seq<nat>)
    requires n < |rs| && PicksOut(rs[..n], out, at)
    ensures
      if IsSuspicious(rs[n]) then PicksOut(rs[..n + 1], out + [rs[n]], at + [n])
      else PicksOut(rs[..n + 1], out, at)
  {
    var more := at + [n];
    assert more[|at|] == n;
    forall i: nat | PickedAt(at, i)
      ensures PickedAt(more, i)
    {
      var k :| 0 <= k < |at| && at[k] == i;
      assert more[k] == i;
    }
    assert PickedAt(more, n);
  }

  lemma PickedOutMeaning(rs: seq<Region>, out: seq<Region>, at: seq<nat>)
    requires PicksOut(rs, out, at)
    ensures forall k :: 0 <= k < |out| ==> 'w' in out[k].permissions && 'x' in out[k].permissions
    ensures forall i: nat :: i < |rs| && 'w' in rs[i].permissions && 'x' in rs[i].permissions ==> rs[i] in out
  {
    forall i: nat | i < |rs| && 'w' in rs[i].permissions && 'x' in rs[i].permissions
      ensures rs[i] in out
    {
      assert IsSuspicious(rs[i]) && PickedAt(at, i);
      var k :| 0 <= k < |at| && at[k] == i;
      assert out[k] == rs[i];
    }
  }

  /** All regions that are both writable and executable, in order. */
  method DetectSuspiciousRegions(regions: seq<Region>) returns (suspicious: seq<Region>)
    ensures exists at :: PicksOut(regions, suspicious, at)
    ensures forall k :: 0 <= k < |suspicious| ==>
      'w' in suspicious[k].permissions && 'x' in suspicious[k].permissions
    ensures forall i: nat :: i < |regions| && 'w' in regions[i].permissions && 'x' in regions[i].permissions ==>
      regions[i] in suspicious
  {
    suspicious := [];
    ghost var at: seq<nat> := [];
    for i := 0 to |regions|
      invariant PicksOut(regions[..i], suspicious, at)
    {
      PicksNext(regions, i, suspicious, at);
      if IsSuspicious(regions[i]) {
        suspicious, at := suspicious + [regions[i]], at + [i];
      }
    }
    assert regions[..|regions|] == regions;
    PickedOutMeaning(regions, suspicious, at);
  }

  /** The last of increasing positions is the greatest. */
  lemma GreatestIsLast(at: seq<nat>, k: nat)
    requires Increasing(at) && k < |at|
    ensures at[k] <= at[|at| - 1]
  {
  }

  lemma LastsAgree(at: seq<nat>, bt: seq<nat>)
    requires Increasing(at) && Increasing(bt) && at != [] && PickedAt(bt, at[|at| - 1])
    ensures bt != [] && at[|at| - 1] <= bt[|bt| - 1]
  {
    var k :| 0 <= k < |bt| && bt[k] == at[|at| - 1];
    GreatestIsLast(bt, k);
  }

  lemma PickedButLast(at: seq<nat>, i: nat)
    requires Increasing(at) && at != []
    ensures PickedAt(at[..|at| - 1], i) <==> PickedAt(at, i) && i != at[|at| - 1]
  {
    var m := |at| - 1;
    if k :| 0 <= k < |at[..m]| && at[..m][k] == i {
      assert at[k] == i && at[k] < at[m];
    }
    if PickedAt(at, i) && i != at[m] {
      var k :| 0 <= k < |at| && at[k] == i;
      assert at[..m][k] == i;
    }
  }

  /** Increasing positions are fixed by which they are. */
  lemma {:induction false} IncreasingOnce(at: seq<nat>, bt: seq<nat>)
    requires Increasing(at) && Increasing(bt) && forall i: nat :: PickedAt(at, i) <==> PickedAt(bt, i)
    ensures at == bt
    decreases |at|
  {
    if at == [] {
      assert bt != [] ==> PickedAt(bt, bt[0]);
    } else {
      var m, n := |at| - 1, |bt| - 1;
      assert PickedAt(at, at[m]);
      LastsAgree(at, bt);
      assert PickedAt(bt, bt[n]);
      LastsAgree(bt, at);
      forall i: nat
        ensures PickedAt(at[..m], i) <==> PickedAt(bt[..n], i)
      {
        PickedButLast(at, i);
        PickedButLast(bt, i);
      }
      IncreasingOnce(at[..m], bt[..n]);
      assert at == at[..m] + [at[m]] && bt == bt[..n] + [bt[n]];
    }
  }

  lemma PickedIffSuspicious(rs: seq<Region>, out: seq<Region>, at: seq<nat>, i: nat)
    requires PicksOut(rs, out, at)
    ensures PickedAt(at, i) <==> i < |rs| && IsSuspicious(rs[i])
  {
  }

  /** Only one list picks out the suspicious regions, so the method above has a single right answer. */
  lemma PickedOutOnce(rs: seq<Region>, a: seq<Region>, b: seq<Region>, at: seq<nat>, bt: seq<nat>)
    requires PicksOut(rs, a, at) && PicksOut(rs, b, bt)
    ensures a == b && at == bt
  {
    forall i: nat
      ensures PickedAt(at, i) <==> PickedAt(bt, i)
    {
      PickedIffSuspicious(rs, a, at, i);
      PickedIffSuspicious(rs, b, bt, i);
    }
    IncreasingOnce(at, bt);
  }
}

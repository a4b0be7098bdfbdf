/** Unified hunks as text: parsing them, and the patch made of a whole file's content. */
module DiffText {
  import opened Claims
  import opened Projector
  import opened Diffs

  // ---------- lines ----------

  /** The line boundaries of `str.splitlines`. */
  predicate IsBreak(c: char) {
    var n := c as int;
    0xA <= n <= 0xD || 0x1C <= n <= 0x1E || n == 0x85 || n == 0x2028 || n == 0x2029
  }

  predicate NoBreak(s: string) {
    forall i | 0 <= i < |s| :: !IsBreak(s[i])
  }

  function LineLength(s: string): (n: nat)
    ensures n <= |s| && NoBreak(s[..n]) && (n < |s| ==> IsBreak(s[n]))
  {
    if s == "" || IsBreak(s[0]) then 0
    else
      var n := LineLength(s[1..]);
      assert s[..1 + n] == [s[0]] + s[1..][..n];
      1 + n
  }

  function SplitLines(s: string): seq<string>
    decreases |s|
  {
    if s == "" then []
    else
      var n := LineLength(s);
      if n == |s| then [s]
      else
        var next := if s[n] == '\r' && n + 1 < |s| && s[n + 1] == '\n' then n + 2 else n + 1;
        [s[..n]] + SplitLines(s[next..])
  }

  /** Each line with a newline after it. */
  function Render(ls: seq<string>): string {
    if ls == [] then "" else ls[0] + "\n" + Render(ls[1..])
  }

  lemma {:induction false} LineLengthIs(l: string, rest: string)
    requires NoBreak(l) && rest != "" && IsBreak(rest[0])
    ensures LineLength(l + rest) == |l|
  {
    if l == "" {
      assert l + rest == rest;
    } else {
      assert (l + rest)[1..] == l[1..] + rest;
      LineLengthIs(l[1..], rest);
    }
  }

  lemma {:induction false} SplitRendered(ls: seq<string>)
    requires forall l | l in ls :: NoBreak(l)
    ensures SplitLines(Render(ls)) == ls
  {
    if ls != [] {
      var l, tail := ls[0], Render(ls[1..]);
      assert ls == [l] + ls[1..] && Render(ls) == l + ("\n" + tail);
      LineLengthIs(l, "\n" + tail);
      assert (l + ("\n" + tail))[..|l|] == l && (l + ("\n" + tail))[|l| + 1..] == tail;
      SplitRendered(ls[1..]);
    }
  }

  lemma {:induction false} SplitHasNoBreaks(s: string)
    ensures forall l | l in SplitLines(s) :: NoBreak(l)
    decreases |s|
  {
    if s != "" {
      var n := LineLength(s);
      if n == |s| {
        assert s[..n] == s;
      } else {
        var next := if s[n] == '\r' && n + 1 < |s| && s[n + 1] == '\n' then n + 2 else n + 1;
        SplitHasNoBreaks(s[next..]);
      }
    }
  }

  // ---------- hunk headers ----------

  predicate IsDigit(c: char) {
    '0' <= c <= '9'
  }

  function DigitCount(s: string): (n: nat)
    ensures n <= |s| && (n < |s| ==> !IsDigit(s[n])) && forall i | 0 <= i < n :: IsDigit(s[i])
  {
    if s == "" || !IsDigit(s[0]) then 0 else 1 + DigitCount(s[1..])
  }

  /** The number a run of digits denotes. */
  function Number(s: string): nat {
    if s == "" then 0
    else 10 * Number(s[..|s| - 1])
         + if IsDigit(s[|s| - 1]) then s[|s| - 1] as int - '0' as int else 0
  }

  datatype Parsed<T> = NoMatch | Match(value: T, rest: string)

  function ParseLiteral(s: string, lit: string): Parsed<string> {
    if |lit| <= |s| && s[..|lit|] == lit then Match(lit, s[|lit|..]) else NoMatch
  }

  function ParseNumber(s: string): Parsed<nat> {
    var n := DigitCount(s);
    if n == 0 then NoMatch else Match(Number(s[..n]), s[n..])
  }

  /** A start and an optional count, which defaults to one. */
  datatype Range = Range(start: nat, count: nat)

  function ParseRange(s: string): Parsed<Range> {
    match ParseNumber(s)
    case NoMatch => NoMatch
    case Match(start, rest) =>
      match ParseLiteral(rest, ",")
      case NoMatch => Match(Range(start, 1), rest)
      case Match(_, more) =>
        match ParseNumber(more)
        case NoMatch => Match(Range(start, 1), rest)
        case Match(count, end) => Match(Range(start, count), end)
  }

  datatype Header = Header(before: Range, after: Range)

  function ParseHeader(line: string): Option<Header> {
    match ParseLiteral(line, "@@ -")
    case NoMatch => None
    case Match(_, a) =>
      match ParseRange(a)
      case NoMatch => None
      case Match(o, b) =>
        match ParseLiteral(b, " +")
        case NoMatch => None
        case Match(_, c) =>
          match ParseRange(c)
          case NoMatch => None
          case Match(n, d) => if ParseLiteral(d, " @@").Match? then Some(Header(o, n)) else None
  }

  // ---------- the hunk parser ----------

  function TagLine(line: string): Option<HunkLine> {
    if line == "" then Some(HunkLine(Context, ""))
    else if line[0] == ' ' then Some(HunkLine(Context, line[1..]))
    else if line[0] == '+' then Some(HunkLine(Added, line[1..]))
    else if line[0] == '-' then Some(HunkLine(Removed, line[1..]))
    else None
  }

  /** `reading` says whether the last hunk is still taking lines. */
  datatype Reader = Reader(hunks: seq<PatchHunk>, reading: bool, oldLeft: int, newLeft: int)

  function ReadLine(r: Reader, line: string): Reader {
    if r.reading && r.hunks != [] && (r.oldLeft > 0 || r.newLeft > 0) then
      if line != "" && line[0] == '\\' then r
      else
        var tagged := TagLine(line);
        if tagged.None? then r.(reading := false)
        else
          var last := r.hunks[|r.hunks| - 1];
          Reader(r.hunks[..|r.hunks| - 1] + [last.(lines := last.lines + [tagged.value])], true,
                 r.oldLeft - (if tagged.value.tag == Added then 0 else 1),
                 r.newLeft - (if tagged.value.tag == Removed then 0 else 1))
    else
      match ParseHeader(line)
      case None => r
      case Some(h) =>
        Reader(r.hunks + [PatchHunk(Some(h.before.start), Some(h.after.start), [])], true, h.before.count, h.after.count)
  }

  function ReadLines(ls: seq<string>): Reader {
    if ls == [] then Reader([], false, 0, 0) else ReadLine(ReadLines(ls[..|ls| - 1]), ls[|ls| - 1])
  }

  method Consume(r: Reader, line: string) returns (next: Reader)
    ensures next == ReadLine(r, line)
  {
    next := r;
    if r.reading && r.hunks != [] && (r.oldLeft > 0 || r.newLeft > 0) {
      if line != "" && line[0] == '\\' { return; }
      var tagged := TagLine(line);
      if tagged.None? { return r.(reading := false); }
      var last := r.hunks[|r.hunks| - 1];
      next := next.(hunks := r.hunks[..|r.hunks| - 1] + [last.(lines := last.lines + [tagged.value])]);
      if tagged.value.tag != Added { next := next.(oldLeft := r.oldLeft - 1); }
      if tagged.value.tag != Removed { next := next.(newLeft := r.newLeft - 1); }
      return;
    }
    var header := ParseHeader(line);
    if header.Some? {
      var h := header.value;
      next := Reader(r.hunks + [PatchHunk(Some(h.before.start), Some(h.after.start), [])], true, h.before.count, h.after.count);
    }
  }

  method ParseUnifiedHunks(text: string) returns (hunks: seq<PatchHunk>)
    ensures hunks == ReadLines(SplitLines(text)).hunks
  {
    var lines := SplitLines(text);
    var r := Reader([], false, 0, 0);
    for i := 0 to |lines|
      invariant r == ReadLines(lines[..i])
    {
      assert lines[..i + 1][..i] == lines[..i];
      r := Consume(r, lines[i]);
    }
    assert lines[..|lines|] == lines;
    return r.hunks;
  }

  // ---------- the patch of a whole file ----------

  datatype ChangeKind = AddFile | DeleteFile

  function Mark(kind: ChangeKind): char {
    if kind == AddFile then '+' else '-'
  }

  function MarkAll(kind: ChangeKind, ls: seq<string>): seq<string> {
    if ls == [] then [] else MarkAll(kind, ls[..|ls| - 1]) + [[Mark(kind)] + ls[|ls| - 1]]
  }

  const OPENING: string := "@@ -"
  const MIDDLE: string := " +"
  const CLOSING: string := " @@"

  function HeaderText(a: string, b: string, c: string, d: string): string {
    OPENING + (a + ("," + (b + (MIDDLE + (c + ("," + (d + CLOSING)))))))
  }

  function HeaderLine(kind: ChangeKind, n: nat): string {
    if kind == AddFile then HeaderText("0", "0", "1", Digits(n)) else HeaderText("1", Digits(n), "0", "0")
  }

  function PatchLines(content: string, kind: ChangeKind): seq<string> {
    [HeaderLine(kind, |SplitLines(content)|)] + MarkAll(kind, SplitLines(content))
  }

  function ContentPatch(content: string, kind: ChangeKind): string {
    Render(PatchLines(content, kind))
  }

  function LinesOf(kind: ChangeKind, ls: seq<string>): seq<HunkLine> {
    if ls == [] then []
    else LinesOf(kind, ls[..|ls| - 1]) + [HunkLine(if kind == AddFile then Added else Removed, ls[|ls| - 1])]
  }

  function WholeFileHunk(kind: ChangeKind, ls: seq<string>): PatchHunk {
    PatchHunk(Some(if kind == AddFile then 0 else 1), Some(if kind == AddFile then 1 else 0), LinesOf(kind, ls))
  }

  // ---------- the round trip ----------

  lemma {:induction false} DigitsFacts(n: nat)
    ensures AllDigits(Digits(n)) && Number(Digits(n)) == n
  {
    if n >= 10 {
      DigitsFacts(n / 10);
      DigitsFacts(n % 10);
      assert Digits(n)[..|Digits(n)| - 1] == Digits(n / 10);
    } else {
      assert Digits(n)[..0] == "";
    }
  }

  /** An exit code as it is written in a claim reads back, its sign included. */
  lemma DecimalReads(n: int)
    ensures var s := Decimal(n);
      if n >= 0 then AllDigits(s) && Number(s) == n
      else s != "" && s[0] == '-' && AllDigits(s[1..]) && Number(s[1..]) == -n
  {
    if n >= 0 {
      DigitsFacts(n);
    } else {
      DigitsFacts(-n);
      assert Decimal(n)[1..] == Digits(-n);
    }
  }

  predicate AllDigits(s: string) {
    s != "" && forall i | 0 <= i < |s| :: IsDigit(s[i])
  }

  lemma {:induction false} DigitCountIs(digits: string, rest: string)
    requires (forall i | 0 <= i < |digits| :: IsDigit(digits[i])) && (rest == "" || !IsDigit(rest[0]))
    ensures DigitCount(digits + rest) == |digits|
  {
    if digits == "" {
      assert digits + rest == rest;
    } else {
      assert (digits + rest)[1..] == digits[1..] + rest;
      DigitCountIs(digits[1..], rest);
    }
  }

  lemma NumberThen(digits: string, rest: string)
    requires AllDigits(digits) && (rest == "" || !IsDigit(rest[0]))
    ensures ParseNumber(digits + rest) == Match(Number(digits), rest)
  {
    DigitCountIs(digits, rest);
    assert (digits + rest)[..|digits|] == digits && (digits + rest)[|digits|..] == rest;
  }

  lemma RangeThen(start: string, count: string, rest: string)
    requires AllDigits(start) && AllDigits(count) && (rest == "" || !IsDigit(rest[0]))
    ensures ParseRange(start + ("," + (count + rest))) == Match(Range(Number(start), Number(count)), rest)
  {
    var more := count + rest;
    NumberThen(start, "," + more);
    assert ("," + more)[..1] == "," && ("," + more)[1..] == more;
    NumberThen(count, rest);
  }

  lemma LiteralThen(lit: string, rest: string)
    ensures ParseLiteral(lit + rest, lit) == Match(lit, rest)
  {
    assert (lit + rest)[..|lit|] == lit && (lit + rest)[|lit|..] == rest;
  }

  lemma HeaderOf(line: string, a: string, o: Range, b: string, c: string, n: Range, d: string)
    requires ParseLiteral(line, OPENING) == Match(OPENING, a) && ParseRange(a) == Match(o, b)
    requires ParseLiteral(b, MIDDLE) == Match(MIDDLE, c) && ParseRange(c) == Match(n, d)
    requires ParseLiteral(d, CLOSING).Match?
    ensures ParseHeader(line) == Some(Header(o, n))
  {
  }

  lemma SmallNumbers()
    ensures Digits(0) == "0" && Digits(1) == "1"
  {
  }

  lemma DigitsAreDigits(n: nat)
    ensures AllDigits(Digits(n)) && NoBreak(Digits(n))
  {
    DigitsFacts(n);
  }

  lemma HeaderIsLine(kind: ChangeKind, n: nat)
    ensures NoBreak(HeaderLine(kind, n))
  {
    DigitsAreDigits(n);
    hide Digits;
    TextIsLine("0", "0", "1", Digits(n));
    TextIsLine("1", Digits(n), "0", "0");
  }

  lemma TextIsLine(a: string, b: string, c: string, d: string)
    requires NoBreak(a) && NoBreak(b) && NoBreak(c) && NoBreak(d)
    ensures NoBreak(HeaderText(a, b, c, d))
  {
    NoBreakConcat(d, CLOSING);
    NoBreakConcat(",", d + CLOSING);
    NoBreakConcat(c, "," + (d + CLOSING));
    var third := c + ("," + (d + CLOSING));
    NoBreakConcat(MIDDLE, third);
    NoBreakConcat(b, MIDDLE + third);
    NoBreakConcat(",", b + (MIDDLE + third));
    NoBreakConcat(a, "," + (b + (MIDDLE + third)));
    NoBreakConcat(OPENING, a + ("," + (b + (MIDDLE + third))));
  }

  lemma NoBreakConcat(a: string, b: string)
    requires NoBreak(a) && NoBreak(b)
    ensures NoBreak(a + b)
  {
  }

  lemma {:induction false} MarkedFacts(kind: ChangeKind, ls: seq<string>)
    requires forall l | l in ls :: NoBreak(l)
    ensures |MarkAll(kind, ls)| == |ls| && forall l | l in MarkAll(kind, ls) :: NoBreak(l)
  {
    if ls != [] {
      var init, last := ls[..|ls| - 1], ls[|ls| - 1];
      assert ls == init + [last];
      MarkedFacts(kind, init);
      assert last in ls && NoBreak(last) && !IsBreak(Mark(kind));
    }
  }

  lemma ReadLinesPush(ls: seq<string>, l: string)
    ensures ReadLines(ls + [l]) == ReadLine(ReadLines(ls), l)
  {
    assert (ls + [l])[..|ls|] == ls;
  }

  lemma {:induction false} WholeFileLines(kind: ChangeKind, ls: seq<string>)
    ensures OldLines(LinesOf(kind, ls)) == if kind == AddFile then [] else ls
    ensures NewLines(LinesOf(kind, ls)) == if kind == AddFile then ls else []
  {
    if ls != [] {
      var init, x := ls[..|ls| - 1], HunkLine(if kind == AddFile then Added else Removed, ls[|ls| - 1]);
      WholeFileLines(kind, init);
      LinesConcat(LinesOf(kind, init), x);
      assert LinesOf(kind, ls) == LinesOf(kind, init) + [x];
      assert ls == init + [ls[|ls| - 1]];
    }
  }

  lemma {:induction false} LinesConcat(a: seq<HunkLine>, x: HunkLine)
    ensures OldLines(a + [x]) == OldLines(a) + if x.tag == Added then [] else [x.text]
    ensures NewLines(a + [x]) == NewLines(a) + if x.tag == Removed then [] else [x.text]
  {
    if a == [] {
      assert a + [x] == [x];
    } else {
      assert (a + [x])[1..] == a[1..] + [x];
      LinesConcat(a[1..], x);
      Together(if a[0].tag == Added then [] else [a[0].text], OldLines(a[1..]), if x.tag == Added then [] else [x.text]);
      Together(if a[0].tag == Removed then [] else [a[0].text], NewLines(a[1..]), if x.tag == Removed then [] else [x.text]);
    }
  }

  // ---------- any patch reads back ----------

  /** A hunk line as it is written, with the mark of its kind first. */
  function LineText(l: HunkLine): string {
    [match l.tag case Context => ' ' case Added => '+' case Removed => '-'] + l.text
  }

  function LineTexts(ls: seq<HunkLine>): seq<string> {
    if ls == [] then [] else LineTexts(ls[..|ls| - 1]) + [LineText(ls[|ls| - 1])]
  }

  /** A range as it is written; a count of one may be left out. */
  predicate WritesRange(text: string, start: nat, count: nat) {
    text == Digits(start) + "," + Digits(count) || (count == 1 && text == Digits(start))
  }

  /** A header for the hunk: where it starts on either side and how many lines it has there.
      What follows the second pair of marks is free. */
  ghost predicate WritesHeader(line: string, h: PatchHunk) {
    h.oldStart.Some? && h.newStart.Some?
    && exists a, b, c: string ::
      WritesRange(a, h.oldStart.value, |OldLines(h.lines)|) && WritesRange(b, h.newStart.value, |NewLines(h.lines)|)
      && line == "@@ -" + (a + (" +" + (b + (" @@" + c))))
  }

  /** The lines of a patch: hunk after hunk, each with its header. */
  ghost predicate WritesPatch(lines: seq<string>, hunks: seq<PatchHunk>)
    decreases |hunks|
  {
    if hunks == [] then lines == []
    else
      var h := hunks[|hunks| - 1];
      exists before: seq<string>, header: string ::
        WritesPatch(before, hunks[..|hunks| - 1]) && WritesHeader(header, h) && lines == before + [header] + LineTexts(h.lines)
  }

  lemma RangeReads(text: string, start: nat, count: nat, rest: string)
    requires WritesRange(text, start, count) && rest != "" && !IsDigit(rest[0]) && rest[0] != ','
    ensures ParseRange(text + rest) == Match(Range(start, count), rest)
  {
    hide ParseRange, Digits;
    DigitsFacts(start);
    DigitsFacts(count);
    if text == Digits(start) + "," + Digits(count) {
      RangeThen(Digits(start), Digits(count), rest);
      ThreeParts(Digits(start), ",", Digits(count), rest);
    } else {
      StartThen(Digits(start), rest);
    }
  }

  lemma ThreeParts(a: string, b: string, c: string, d: string)
    ensures a + b + c + d == a + (b + (c + d))
  {
  }

  /** Without a comma the count is one. */
  lemma StartThen(start: string, rest: string)
    requires AllDigits(start) && rest != "" && !IsDigit(rest[0]) && rest[0] != ','
    ensures ParseRange(start + rest) == Match(Range(Number(start), 1), rest)
  {
    hide Number, ParseNumber;
    NumberThen(start, rest);
    assert rest[..1] == [rest[0]];
  }

  lemma HeaderParses(line: string, h: PatchHunk)
    requires WritesHeader(line, h)
    ensures ParseHeader(line)
         == Some(Header(Range(h.oldStart.value, |OldLines(h.lines)|), Range(h.newStart.value, |NewLines(h.lines)|)))
  {
    var a, b, c :| WritesRange(a, h.oldStart.value, |OldLines(h.lines)|) && WritesRange(b, h.newStart.value, |NewLines(h.lines)|)
      && line == "@@ -" + (a + (" +" + (b + (" @@" + c))));
    hide WritesRange, ParseRange, ParseHeader;
    var last := " @@" + c;
    var second := " +" + (b + last);
    LiteralThen(OPENING, a + second);
    RangeReads(a, h.oldStart.value, |OldLines(h.lines)|, second);
    LiteralThen(MIDDLE, b + last);
    RangeReads(b, h.newStart.value, |NewLines(h.lines)|, last);
    LiteralThen(CLOSING, c);
    HeaderOf(line, a + second, Range(h.oldStart.value, |OldLines(h.lines)|), second, b + last,
             Range(h.newStart.value, |NewLines(h.lines)|), last);
  }

  /** The reader inside a hunk of which `ls` was read and `rest` is to come. */
  function Inside(done: seq<PatchHunk>, h: PatchHunk, ls: seq<HunkLine>): Reader {
    Reader(done + [h.(lines := ls)], true, |OldLines(h.lines)| - |OldLines(ls)|, |NewLines(h.lines)| - |NewLines(ls)|)
  }

  lemma ReadsLine(done: seq<PatchHunk>, h: PatchHunk, ls: seq<HunkLine>, l: HunkLine, rest: seq<HunkLine>)
    requires h.lines == ls + [l] + rest
    ensures ReadLine(Inside(done, h, ls), LineText(l)) == Inside(done, h, ls + [l])
  {
    var r, line := Inside(done, h, ls), LineText(l);
    LinesConcat(ls, l);
    LinesSplit(ls + [l], rest);
    assert line[0] != '\\' && line[1..] == l.text;
    assert TagLine(line) == Some(l);
    assert r.hunks[..|r.hunks| - 1] == done;
  }

  lemma {:induction false} LinesSplit(a: seq<HunkLine>, b: seq<HunkLine>)
    ensures OldLines(a + b) == OldLines(a) + OldLines(b) && NewLines(a + b) == NewLines(a) + NewLines(b)
    decreases |b|
  {
    if b == [] {
      assert a + b == a;
    } else {
      var init, l := b[..|b| - 1], b[|b| - 1];
      LinesSplit(a, init);
      LinesConcat(a + init, l);
      LinesConcat(init, l);
      assert a + b == a + init + [l] && b == init + [l];
      hide OldLines, NewLines;
      Together(OldLines(a), OldLines(init), if l.tag == Added then [] else [l.text]);
      Together(NewLines(a), NewLines(init), if l.tag == Removed then [] else [l.text]);
    }
  }

  lemma Together(x: seq<string>, y: seq<string>, z: seq<string>)
    ensures x + y + z == x + (y + z)
  {
  }

  lemma {:induction false} ReadsBody(before: seq<string>, done: seq<PatchHunk>, h: PatchHunk, ls: seq<HunkLine>, rest: seq<HunkLine>)
    requires ReadLines(before) == Inside(done, h, []) && h.lines == ls + rest
    ensures ReadLines(before + LineTexts(ls)) == Inside(done, h, ls)
    decreases |ls|
  {
    hide ReadLines, ReadLine, Inside, LineText;
    if ls == [] {
      assert before + LineTexts(ls) == before;
    } else {
      var init, l := ls[..|ls| - 1], ls[|ls| - 1];
      MiddleLine(h.lines, init, l, ls, rest);
      ReadsBody(before, done, h, init, [l] + rest);
      ReadLinesPush(before + LineTexts(init), LineText(l));
      assert before + LineTexts(ls) == before + LineTexts(init) + [LineText(l)];
      ReadsLine(done, h, init, l, rest);
    }
  }

  lemma MiddleLine(all: seq<HunkLine>, init: seq<HunkLine>, l: HunkLine, ls: seq<HunkLine>, rest: seq<HunkLine>)
    requires all == ls + rest && ls != [] && init == ls[..|ls| - 1] && l == ls[|ls| - 1]
    ensures ls == init + [l] && all == init + ([l] + rest) && all == init + [l] + rest
  {
  }

  /** Between hunks the reader takes a header. */
  predicate Rests(r: Reader) {
    r.hunks == [] || (r.oldLeft <= 0 && r.newLeft <= 0)
  }

  lemma ReadsHeader(r: Reader, line: string, h: PatchHunk)
    requires Rests(r) && WritesHeader(line, h)
    ensures ReadLine(r, line) == Inside(r.hunks, h, [])
  {
    HeaderParses(line, h);
    assert h.(lines := []) == PatchHunk(Some(h.oldStart.value), Some(h.newStart.value), []);
  }

  /** Any patch written this way reads back as its hunks: any number of hunks, lines of all
      three kinds in any order, counts written or left out. */
  lemma {:induction false} PatchReadsBack(lines: seq<string>, hunks: seq<PatchHunk>)
    requires WritesPatch(lines, hunks)
    ensures ReadLines(lines).hunks == hunks && Rests(ReadLines(lines))
    decreases |hunks|
  {
    hide WritesHeader, ReadLine, LineTexts, ReadLines, Rests, WritesPatch;
    if hunks == [] {
      NothingRead(lines);
    } else {
      var init, h := hunks[..|hunks| - 1], hunks[|hunks| - 1];
      var before, header := LastHunk(lines, hunks);
      PatchReadsBack(before, init);
      HunkReadsBack(before, header, init, h);
      assert hunks == init + [h];
    }
  }

  lemma NothingRead(lines: seq<string>)
    requires WritesPatch(lines, [])
    ensures ReadLines(lines).hunks == [] && Rests(ReadLines(lines))
  {
  }

  lemma LastHunk(lines: seq<string>, hunks: seq<PatchHunk>) returns (before: seq<string>, header: string)
    requires hunks != [] && WritesPatch(lines, hunks)
    ensures var h := hunks[|hunks| - 1];
      WritesPatch(before, hunks[..|hunks| - 1]) && WritesHeader(header, h) && lines == before + [header] + LineTexts(h.lines)
  {
    hide WritesHeader, LineTexts;
    var h := hunks[|hunks| - 1];
    before, header :|
      WritesPatch(before, hunks[..|hunks| - 1]) && WritesHeader(header, h) && lines == before + [header] + LineTexts(h.lines);
  }

  lemma HunkReadsBack(before: seq<string>, header: string, done: seq<PatchHunk>, h: PatchHunk)
    requires ReadLines(before).hunks == done && Rests(ReadLines(before)) && WritesHeader(header, h)
    ensures var r := ReadLines(before + [header] + LineTexts(h.lines)); r.hunks == done + [h] && Rests(r)
  {
    hide WritesHeader, ReadLine, LineTexts, ReadLines, Rests, Inside;
    ReadLinesPush(before, header);
    ReadsHeader(ReadLines(before), header, h);
    assert h.lines + [] == h.lines;
    ReadsBody(before + [header], done, h, h.lines, []);
    HunkDone(done, h);
  }

  lemma HunkDone(done: seq<PatchHunk>, h: PatchHunk)
    ensures Inside(done, h, h.lines).hunks == done + [h] && Rests(Inside(done, h, h.lines))
  {
  }

  // ---------- the patch of a whole file ----------

  lemma {:induction false} MarksAreTexts(kind: ChangeKind, ls: seq<string>)
    ensures LineTexts(LinesOf(kind, ls)) == MarkAll(kind, ls)
  {
    if ls != [] {
      var init := ls[..|ls| - 1];
      MarksAreTexts(kind, init);
      var l := HunkLine(if kind == AddFile then Added else Removed, ls[|ls| - 1]);
      assert LinesOf(kind, ls)[..|LinesOf(kind, ls)| - 1] == LinesOf(kind, init);
      assert LinesOf(kind, ls)[|LinesOf(kind, ls)| - 1] == l && LineText(l) == [Mark(kind)] + l.text;
    }
  }

  lemma HeaderParts(a: string, b: string, c: string, d: string)
    ensures HeaderText(a, b, c, d) == "@@ -" + ((a + "," + b) + (" +" + ((c + "," + d) + (" @@" + ""))))
  {
    assert " @@" + "" == CLOSING;
    ThreeParts(c, ",", d, CLOSING);
    ThreeParts(a, ",", b, MIDDLE + (c + ("," + (d + CLOSING))));
  }

  lemma WholeFileHeader(kind: ChangeKind, ls: seq<string>)
    ensures WritesHeader(HeaderLine(kind, |ls|), WholeFileHunk(kind, ls))
  {
    WholeFileLines(kind, ls);
    SmallNumbers();
    hide Digits, OldLines, NewLines, HeaderText;
    var n := Digits(|ls|);
    HeaderParts("0", "0", "1", n);
    HeaderParts("1", n, "0", "0");
    if kind == AddFile {
      assert WritesRange("0" + "," + "0", 0, 0) && WritesRange("1" + "," + n, 1, |ls|);
    } else {
      assert WritesRange("1" + "," + n, 1, |ls|) && WritesRange("0" + "," + "0", 0, 0);
    }
  }

  lemma WholeFilePatch(content: string, kind: ChangeKind)
    ensures WritesPatch(PatchLines(content, kind), [WholeFileHunk(kind, SplitLines(content))])
  {
    hide WritesHeader, SplitLines, HeaderLine, MarkAll;
    var ls := SplitLines(content);
    var hunks := [WholeFileHunk(kind, ls)];
    WholeFileHeader(kind, ls);
    MarksAreTexts(kind, ls);
    assert hunks[..0] == [] && WritesPatch([], []);
    assert PatchLines(content, kind) == [] + [HeaderLine(kind, |ls|)] + LineTexts(LinesOf(kind, ls));
    assert hunks[0].lines == LinesOf(kind, ls);
  }

  /** The patch written for a whole file reads back as one hunk of all its lines. Applied, the
      hunk of an added file yields the file from nothing, and the hunk of a deleted file stands
      on the file and leaves nothing. */
  lemma ContentPatchReadsBack(content: string, kind: ChangeKind)
    ensures var ls := SplitLines(content);
      var hunk := WholeFileHunk(kind, ls);
      && ReadLines(SplitLines(ContentPatch(content, kind))).hunks == [hunk]
      && (kind == AddFile ==> ApplyHunk([], hunk, 1) == ls)
      && (kind == DeleteFile ==> StandsAt(ls, OldLines(hunk.lines), 1) && ApplyHunk(ls, hunk, 1) == [])
  {
    hide ReadLines, SplitLines, Render, NoBreak, HeaderLine, MarkAll, WritesPatch;
    var ls := SplitLines(content);
    SplitHasNoBreaks(content);
    MarkedFacts(kind, ls);
    HeaderIsLine(kind, |ls|);
    SplitRendered(PatchLines(content, kind));
    WholeFilePatch(content, kind);
    PatchReadsBack(PatchLines(content, kind), [WholeFileHunk(kind, ls)]);
    WholeFileLines(kind, ls);
  }
}

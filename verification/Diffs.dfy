/** Hunks: which old lines they change, where they apply, and why an edit that touches no line
    of a region leaves the region whole. */
module Diffs {
  import opened Claims

  datatype Tag = Context | Removed | Added

  datatype HunkLine = HunkLine(tag: Tag, text: string)

  datatype PatchHunk = PatchHunk(oldStart: Option<nat>, newStart: Option<nat>, lines: seq<HunkLine>)

  function OldLines(ls: seq<HunkLine>): seq<string> {
    if ls == [] then [] else (if ls[0].tag == Added then [] else [ls[0].text]) + OldLines(ls[1..])
  }

  function NewLines(ls: seq<HunkLine>): seq<string> {
    if ls == [] then [] else (if ls[0].tag == Removed then [] else [ls[0].text]) + NewLines(ls[1..])
  }

  /** An inclusive span of old lines; an insertion before line `p` is `(p, p - 1)`. */
  datatype Span = Span(first: int, last: int)

  /** The spans of the first lines of a hunk, newest last. */
  function SpansOf(ls: seq<HunkLine>, base: int): seq<Span> {
    if ls == [] then []
    else
      var init, tag := ls[..|ls| - 1], ls[|ls| - 1].tag;
      var line := LineAfter(init, base);
      SpansOf(init, base)
      + match tag
        case Context => []
        case Removed => [Span(line, line)]
        case Added => if init == [] || init[|init| - 1].tag == Context then [Span(line, line - 1)] else []
  }

  /** The old line number after the lines `ls`. */
  function LineAfter(ls: seq<HunkLine>, base: int): int {
    if ls == [] then base
    else LineAfter(ls[..|ls| - 1], base) + if ls[|ls| - 1].tag == Added then 0 else 1
  }

  method ChangedSpans(hunk: PatchHunk, base: int) returns (spans: seq<Span>)
    ensures spans == SpansOf(hunk.lines, base)
  {
    spans := [];
    var line := base;
    var prev: Option<Tag> := None;
    for i := 0 to |hunk.lines|
      invariant spans == SpansOf(hunk.lines[..i], base) && line == LineAfter(hunk.lines[..i], base)
      invariant prev == if i == 0 then None else Some(hunk.lines[i - 1].tag)
    {
      assert hunk.lines[..i + 1][..i] == hunk.lines[..i];
      var tag := hunk.lines[i].tag;
      if tag == Context {
        line := line + 1;
      } else if tag == Removed {
        spans := spans + [Span(line, line)];
        line := line + 1;
      } else if prev != Some(Removed) && prev != Some(Added) {
        spans := spans + [Span(line, line - 1)];
      }
      prev := Some(tag);
    }
    assert hunk.lines[..|hunk.lines|] == hunk.lines;
  }

  /** Line `i` of the hunk is recorded: a removal as its old line, an insertion that follows no
      other change as the gap before its old line. */
  predicate Records(ls: seq<HunkLine>, base: int, i: nat, span: Span)
    requires i < |ls|
  {
    var line := base + |OldLines(ls[..i])|;
    || (ls[i].tag == Removed && span == Span(line, line))
    || (ls[i].tag == Added && (i == 0 || ls[i - 1].tag == Context) && span == Span(line, line - 1))
  }

  lemma {:induction false} OldLinesPush(ls: seq<HunkLine>, x: HunkLine)
    ensures OldLines(ls + [x]) == OldLines(ls) + if x.tag == Added then [] else [x.text]
  {
    if ls == [] {
      assert ls + [x] == [x];
    } else {
      assert (ls + [x])[1..] == ls[1..] + [x];
      OldLinesPush(ls[1..], x);
    }
  }

  lemma {:induction false} LineIsCount(ls: seq<HunkLine>, base: int)
    ensures LineAfter(ls, base) == base + |OldLines(ls)|
  {
    if ls != [] {
      LineIsCount(ls[..|ls| - 1], base);
      assert ls == ls[..|ls| - 1] + [ls[|ls| - 1]];
      OldLinesPush(ls[..|ls| - 1], ls[|ls| - 1]);
    }
  }

  /** The spans are what the lines of the hunk record, and nothing else. */
  lemma {:induction false} SpansAreRecords(ls: seq<HunkLine>, base: int, span: Span)
    ensures span in SpansOf(ls, base) <==> exists i | 0 <= i < |ls| :: Records(ls, base, i, span)
  {
    if ls != [] {
      hide Records;
      var init := ls[..|ls| - 1];
      SpansAreRecords(init, base, span);
      LastRecords(ls, base, span);
      forall i | 0 <= i < |init|
        ensures Records(ls, base, i, span) <==> Records(init, base, i, span)
      {
        EarlierRecords(ls, base, i, span);
      }
    }
  }

  lemma LastRecords(ls: seq<HunkLine>, base: int, span: Span)
    requires ls != []
    ensures span in SpansOf(ls, base) <==> span in SpansOf(ls[..|ls| - 1], base) || Records(ls, base, |ls| - 1, span)
  {
    LineIsCount(ls[..|ls| - 1], base);
  }

  lemma EarlierRecords(ls: seq<HunkLine>, base: int, i: nat, span: Span)
    requires i < |ls| - 1
    ensures Records(ls, base, i, span) <==> Records(ls[..|ls| - 1], base, i, span)
  {
    assert ls[..i] == ls[..|ls| - 1][..i];
  }

  /** Whether a span touches the lines `s` to `e`. */
  predicate SpanTouches(span: Span, s: int, e: int) {
    if span.first <= span.last then span.first <= e && span.last >= s
    else s < span.first <= e + 1
  }

  /** Lines that changed touch the region if one of them lies in it; an insertion touches it if
      the line it follows does. */
  lemma TouchingIs(span: Span, s: int, e: int)
    requires s <= e
    ensures span.first <= span.last ==>
      (SpanTouches(span, s, e) <==> exists line: int :: Lies(line, span.first, span.last) && Lies(line, s, e))
    ensures span.last == span.first - 1 ==> (SpanTouches(span, s, e) <==> Lies(span.first - 1, s, e))
  {
    if span.first <= span.last && SpanTouches(span, s, e) {
      var line := if span.first >= s then span.first else s;
      assert Lies(line, span.first, span.last) && Lies(line, s, e);
    }
  }

  predicate Lies(line: int, s: int, e: int) {
    s <= line <= e
  }

  // ---------- applying ----------

  function Take(lines: seq<string>, n: nat): seq<string> {
    if n <= |lines| then lines[..n] else lines
  }

  function Drop(lines: seq<string>, n: nat): seq<string> {
    if n <= |lines| then lines[n..] else []
  }

  function ApplyHunk(lines: seq<string>, hunk: PatchHunk, start: nat): seq<string>
    requires start >= 1
  {
    Take(lines, start - 1) + NewLines(hunk.lines) + Drop(lines, start - 1 + |OldLines(hunk.lines)|)
  }

  /** The block stands at the one-based line `start`. */
  predicate StandsAt(lines: seq<string>, block: seq<string>, start: int) {
    1 <= start && start - 1 + |block| <= |lines| && lines[start - 1..start - 1 + |block|] == block
  }

  function Distance(a: int, b: int): nat {
    if a >= b then a - b else b - a
  }

  /** All lines where the block stands, up to `upTo`, in order. */
  function Matches(lines: seq<string>, block: seq<string>, upTo: nat): seq<int> {
    if upTo == 0 then []
    else Matches(lines, block, upTo - 1) + if StandsAt(lines, block, upTo) then [upTo as int] else []
  }

  function Nearest(ms: seq<int>, hint: int): int
    requires ms != []
  {
    var last := ms[|ms| - 1];
    if |ms| == 1 then last
    else
      var best := Nearest(ms[..|ms| - 1], hint);
      if Distance(last, hint) < Distance(best, hint) || (Distance(last, hint) == Distance(best, hint) && last < best)
      then last else best
  }

  /** Where to apply a block: the match nearest the hint, or the only match without one. */
  function Locate(lines: seq<string>, block: seq<string>, hint: Option<int>): Option<int> {
    if block == [] then hint
    else
      var ms := Matches(lines, block, |lines|);
      if ms == [] then None
      else if hint.None? then if |ms| == 1 then Some(ms[0]) else None
      else Some(Nearest(ms, hint.value))
  }

  lemma {:induction false} MatchMembers(lines: seq<string>, block: seq<string>, upTo: nat, m: int)
    ensures m in Matches(lines, block, upTo) <==> 1 <= m <= upTo && StandsAt(lines, block, m)
  {
    if upTo > 0 {
      MatchMembers(lines, block, upTo - 1, m);
    }
  }

  predicate Increasing(ms: seq<int>) {
    forall i, j | 0 <= i < j < |ms| :: ms[i] < ms[j]
  }

  lemma IncreasingPush(ms: seq<int>, m: int)
    requires Increasing(ms) && forall x | x in ms :: x < m
    ensures Increasing(ms + [m])
  {
    forall i | 0 <= i < |ms|
      ensures ms[i] < m
    {
      assert ms[i] in ms;
    }
  }

  lemma {:induction false} MatchesIncrease(lines: seq<string>, block: seq<string>, upTo: nat)
    ensures Increasing(Matches(lines, block, upTo))
  {
    if upTo > 0 {
      MatchesIncrease(lines, block, upTo - 1);
      if StandsAt(lines, block, upTo) {
        var init := Matches(lines, block, upTo - 1);
        forall m | m in init
          ensures m < upTo
        {
          MatchMembers(lines, block, upTo - 1, m);
        }
        IncreasingPush(init, upTo);
      }
    }
  }

  lemma {:induction false} NearestIs(ms: seq<int>, hint: int)
    requires ms != []
    ensures Nearest(ms, hint) in ms
    ensures forall m | m in ms ::
      Distance(Nearest(ms, hint), hint) < Distance(m, hint)
      || (Distance(Nearest(ms, hint), hint) == Distance(m, hint) && Nearest(ms, hint) <= m)
  {
    if |ms| > 1 {
      NearestIs(ms[..|ms| - 1], hint);
      assert ms == ms[..|ms| - 1] + [ms[|ms| - 1]];
    }
  }

  /** A located block stands where it was located, nearest the hint and first among equals;
      nothing is located exactly when it stands nowhere, or in several places without a hint.
      An empty block is located wherever the hint says. */
  lemma LocateIsNearest(lines: seq<string>, block: seq<string>, hint: Option<int>)
    ensures block == [] ==> Locate(lines, block, hint) == hint
    ensures var r := Locate(lines, block, hint);
      block != [] ==>
      && (r.Some? ==> StandsAt(lines, block, r.value))
      && (r.Some? && hint.Some? ==> forall m | StandsAt(lines, block, m) ::
            Distance(r.value, hint.value) < Distance(m, hint.value)
            || (Distance(r.value, hint.value) == Distance(m, hint.value) && r.value <= m))
      && (r.None? <==> (forall m :: !StandsAt(lines, block, m))
                       || (hint.None? && exists m, k :: m != k && StandsAt(lines, block, m) && StandsAt(lines, block, k)))
  {
    if block != [] {
      var ms := Matches(lines, block, |lines|);
      MatchesIncrease(lines, block, |lines|);
      forall m
        ensures StandsAt(lines, block, m) <==> m in ms
      {
        MatchMembers(lines, block, |lines|, m);
      }
      if ms != [] && hint.Some? {
        NearestIs(ms, hint.value);
      }
      if |ms| > 1 {
        assert ms[0] != ms[1] && ms[0] in ms && ms[1] in ms;
      }
      if ms != [] {
        assert ms[0] in ms;
      }
    }
  }

  // ---------- edit locality ----------

  /** No line of the hunk removes a line of `s` to `e` or inserts between two of them. */
  predicate Quiet(ls: seq<HunkLine>, base: int, s: int, e: int) {
    ls == []
    || match ls[0].tag
       case Context => Quiet(ls[1..], base + 1, s, e)
       case Removed => !(s <= base <= e) && Quiet(ls[1..], base + 1, s, e)
       case Added => !(s < base <= e) && Quiet(ls[1..], base, s, e)
  }

  /** How far the hunk moves line `s`. */
  function Shift(ls: seq<HunkLine>, base: int, s: int): int {
    if ls == [] then 0
    else
      match ls[0].tag
      case Context => Shift(ls[1..], base + 1, s)
      case Removed => (if base < s then -1 else 0) + Shift(ls[1..], base + 1, s)
      case Added => (if base <= s then 1 else 0) + Shift(ls[1..], base, s)
  }

  lemma {:induction false} Renumbered(ls: seq<HunkLine>, base: int, s: int, e: int, k: int)
    ensures Quiet(ls, base + k, s + k, e + k) == Quiet(ls, base, s, e)
    ensures Shift(ls, base + k, s + k) == Shift(ls, base, s)
  {
    if ls != [] {
      Renumbered(ls[1..], base + 1, s, e, k);
      Renumbered(ls[1..], base, s, e, k);
    }
  }

  lemma {:induction false} PastRegion(ls: seq<HunkLine>, base: int, s: int, e: int)
    requires base > e >= s
    ensures Quiet(ls, base, s, e) && Shift(ls, base, s) == 0
  {
    if ls != [] {
      PastRegion(ls[1..], base + 1, s, e);
      PastRegion(ls[1..], base, s, e);
    }
  }

  /** Region `s` to `e` of the old text stands, moved by `shift`, in the new text. */
  predicate Stands(before: seq<string>, after: seq<string>, s: int, e: int, shift: int) {
    && 1 <= s <= e <= |before| && 1 <= s + shift && e + shift <= |after|
    && forall i | s - 1 <= i < e :: before[i] == after[i + shift]
  }

  /** Between `p` and `q`, replacing `o` by `n` moves the region by `shift`. */
  predicate Moves(p: seq<string>, o: seq<string>, n: seq<string>, q: seq<string>, s: int, e: int, shift: int) {
    Stands(p + o + q, p + n + q, s, e, shift)
  }

  lemma ContextMoves(p: seq<string>, x: seq<string>, o: seq<string>, n: seq<string>, q: seq<string>, s: int, e: int, shift: int,
                     before: seq<string>, after: seq<string>)
    requires Moves(p + x, o, n, q, s, e, shift) && before == x + o && after == x + n
    ensures Moves(p, before, after, q, s, e, shift)
  {
    assert p + before + q == p + x + o + q && p + after + q == p + x + n + q;
  }

  /** With one more line removed before or after the region. */
  lemma RemovalMoves(p: seq<string>, x: seq<string>, o: seq<string>, n: seq<string>, q: seq<string>, s: int, e: int, shift: int,
                     before: seq<string>)
    requires |x| == 1 && s <= e && !(s <= |p| + 1 <= e) && before == x + o
    requires Moves(p, o, n, q, if s > |p| then s - 1 else s, if s > |p| then e - 1 else e, shift)
    ensures Moves(p, before, n, q, s, e, (if s > |p| then -1 else 0) + shift)
  {
    var k := if s > |p| then -1 else 0;
    forall i | s - 1 <= i < e
      ensures (p + before + q)[i] == (p + n + q)[i + (k + shift)]
    {
      assert (p + o + q)[i + k] == (p + n + q)[(i + k) + shift];
      assert (p + before + q)[i] == (p + o + q)[i + k];
    }
  }

  /** With one more line added before or after the region. */
  lemma AdditionMoves(p: seq<string>, x: seq<string>, o: seq<string>, n: seq<string>, q: seq<string>, s: int, e: int, shift: int,
                      after: seq<string>)
    requires |x| == 1 && s <= e && !(s < |p| + 1 <= e) && after == x + n
    requires Moves(p + x, o, n, q, if s > |p| then s + 1 else s, if s > |p| then e + 1 else e, shift)
    ensures Moves(p, o, after, q, s, e, (if s > |p| then 1 else 0) + shift)
  {
    var k := if s > |p| then 1 else 0;
    assert p + after + q == p + x + n + q;
    forall i | s - 1 <= i < e
      ensures (p + o + q)[i] == (p + after + q)[i + (k + shift)]
    {
      assert (p + x + o + q)[i + k] == (p + x + n + q)[(i + k) + shift];
      assert (p + o + q)[i] == (p + x + o + q)[i + k];
    }
  }

  /** Around unchanged text, a quiet hunk moves the region and nothing else. */
  lemma {:induction false} QuietHunkMoves(p: seq<string>, ls: seq<HunkLine>, q: seq<string>, s: int, e: int)
    requires 1 <= s <= e <= |p| + |OldLines(ls)| + |q| && Quiet(ls, |p| + 1, s, e)
    ensures Moves(p, OldLines(ls), NewLines(ls), q, s, e, Shift(ls, |p| + 1, s))
    decreases |ls|
  {
    if ls != [] {
      match ls[0].tag
      case Context =>
        FirstLine(ls);
        QuietHunkMoves(p + [ls[0].text], ls[1..], q, s, e);
        ContextMoves(p, [ls[0].text], OldLines(ls[1..]), NewLines(ls[1..]), q, s, e, Shift(ls[1..], |p| + 2, s),
                     OldLines(ls), NewLines(ls));
      case Removed => QuietRemoval(p, ls, q, s, e);
      case Added => QuietAddition(p, ls, q, s, e);
    }
  }

  lemma QuietRemoval(p: seq<string>, ls: seq<HunkLine>, q: seq<string>, s: int, e: int)
    requires ls != [] && ls[0].tag == Removed
    requires 1 <= s <= e <= |p| + |OldLines(ls)| + |q| && Quiet(ls, |p| + 1, s, e)
    ensures Moves(p, OldLines(ls), NewLines(ls), q, s, e, Shift(ls, |p| + 1, s))
    decreases |ls|, 0
  {
    var rest, base := ls[1..], |p| + 1;
    var s', e' := if s > |p| then s - 1 else s, if s > |p| then e - 1 else e;
    FirstLine(ls);
    RemovedHead(ls, base, s, e);
    hide Quiet, Shift, Moves, OldLines, NewLines;
    RemovalShift(rest, base, s, e);
    QuietHunkMoves(p, rest, q, s', e');
    RemovalMoves(p, [ls[0].text], OldLines(rest), NewLines(rest), q, s, e, Shift(rest, base, s'), OldLines(ls));
  }

  lemma RemovedHead(ls: seq<HunkLine>, base: int, s: int, e: int)
    requires ls != [] && ls[0].tag == Removed && Quiet(ls, base, s, e)
    ensures !(s <= base <= e) && Quiet(ls[1..], base + 1, s, e)
    ensures Shift(ls, base, s) == (if base < s then -1 else 0) + Shift(ls[1..], base + 1, s)
  {
  }

  lemma QuietAddition(p: seq<string>, ls: seq<HunkLine>, q: seq<string>, s: int, e: int)
    requires ls != [] && ls[0].tag == Added
    requires 1 <= s <= e <= |p| + |OldLines(ls)| + |q| && Quiet(ls, |p| + 1, s, e)
    ensures Moves(p, OldLines(ls), NewLines(ls), q, s, e, Shift(ls, |p| + 1, s))
    decreases |ls|, 0
  {
    var k := if s > |p| then 1 else 0;
    var rest, p' := AdditionRest(p, ls, s, e, k);
    hide Quiet, Shift, Moves, OldLines, NewLines;
    QuietHunkMoves(p', rest, q, s + k, e + k);
    AddedMoves(p, ls[0].text, p', OldLines(ls), NewLines(rest), q, s, e, k, Shift(rest, |p'| + 1, s + k), NewLines(ls));
  }

  lemma AddedMoves(p: seq<string>, x: string, p': seq<string>, o: seq<string>, n: seq<string>, q: seq<string>, s: int, e: int,
                   k: int, shift: int, after: seq<string>)
    requires s <= e && !(s < |p| + 1 <= e) && p' == p + [x] && after == [x] + n && k == (if s > |p| then 1 else 0)
    requires Moves(p', o, n, q, s + k, e + k, shift)
    ensures Moves(p, o, after, q, s, e, k + shift)
  {
    hide Moves;
    AdditionMoves(p, [x], o, n, q, s, e, shift, after);
  }

  lemma AdditionRest(p: seq<string>, ls: seq<HunkLine>, s: int, e: int, k: int) returns (rest: seq<HunkLine>, p': seq<string>)
    requires ls != [] && ls[0].tag == Added && s <= e && Quiet(ls, |p| + 1, s, e) && k == (if s > |p| then 1 else 0)
    ensures !(s < |p| + 1 <= e) && |rest| + 1 == |ls| && |p'| == |p| + 1 && p' == p + [ls[0].text]
    ensures OldLines(rest) == OldLines(ls) && NewLines(ls) == [ls[0].text] + NewLines(rest)
    ensures Quiet(rest, |p'| + 1, s + k, e + k)
    ensures Shift(ls, |p| + 1, s) == k + Shift(rest, |p'| + 1, s + k)
  {
    rest, p' := ls[1..], p + [ls[0].text];
    FirstLine(ls);
    AddedHead(ls, |p| + 1, s, e);
    hide Quiet, Shift, OldLines, NewLines;
    AdditionShift(rest, |p| + 1, s, e);
  }

  lemma AddedHead(ls: seq<HunkLine>, base: int, s: int, e: int)
    requires ls != [] && ls[0].tag == Added && Quiet(ls, base, s, e)
    ensures !(s < base <= e) && Quiet(ls[1..], base, s, e)
    ensures Shift(ls, base, s) == (if base <= s then 1 else 0) + Shift(ls[1..], base, s)
  {
  }

  /** What the first line adds to the two sides of a hunk. */
  lemma FirstLine(ls: seq<HunkLine>)
    requires ls != []
    ensures OldLines(ls) == if ls[0].tag == Added then OldLines(ls[1..]) else [ls[0].text] + OldLines(ls[1..])
    ensures NewLines(ls) == if ls[0].tag == Removed then NewLines(ls[1..]) else [ls[0].text] + NewLines(ls[1..])
  {
    assert [] + OldLines(ls[1..]) == OldLines(ls[1..]);
    assert [] + NewLines(ls[1..]) == NewLines(ls[1..]);
  }

  lemma RemovalShift(rest: seq<HunkLine>, base: int, s: int, e: int)
    requires s <= e && !(s <= base <= e) && Quiet(rest, base + 1, s, e)
    ensures var k := if s >= base then -1 else 0;
      Quiet(rest, base, s + k, e + k) && Shift(rest, base, s + k) == Shift(rest, base + 1, s)
  {
    if s >= base {
      Renumbered(rest, base, s - 1, e - 1, 1);
    } else {
      PastRegion(rest, base + 1, s, e);
      PastRegion(rest, base, s, e);
    }
  }

  lemma AdditionShift(rest: seq<HunkLine>, base: int, s: int, e: int)
    requires s <= e && !(s < base <= e) && Quiet(rest, base, s, e)
    ensures var k := if s >= base then 1 else 0;
      Quiet(rest, base + 1, s + k, e + k) && Shift(rest, base + 1, s + k) == Shift(rest, base, s)
  {
    if s >= base {
      Renumbered(rest, base, s, e, 1);
    } else {
      PastRegion(rest, base + 1, s, e);
      PastRegion(rest, base, s, e);
    }
  }

  /** No recorded span of the hunk touches the region. */
  predicate Untouched(ls: seq<HunkLine>, base: int, s: int, e: int) {
    forall span | span in SpansOf(ls, base) :: !SpanTouches(span, s, e)
  }

  /** Ends on a line that keeps later unrecorded insertions away from the region. */
  predicate SafeAfter(ls: seq<HunkLine>, base: int, s: int, e: int) {
    ls != [] && ls[|ls| - 1].tag != Context ==> !(s < LineAfter(ls, base) <= e + 1)
  }

  lemma {:induction false} QuietPush(ls: seq<HunkLine>, x: HunkLine, base: int, s: int, e: int)
    ensures Quiet(ls + [x], base, s, e) == (Quiet(ls, base, s, e) && Quiet([x], LineAfter(ls, base), s, e))
    decreases |ls|
  {
    if ls == [] {
      assert ls + [x] == [x];
    } else {
      assert (ls + [x])[1..] == ls[1..] + [x];
      LineAfterCons(ls, base);
      QuietPush(ls[1..], x, base + if ls[0].tag == Added then 0 else 1, s, e);
    }
  }

  lemma {:induction false} LineAfterCons(ls: seq<HunkLine>, base: int)
    requires ls != []
    ensures LineAfter(ls, base) == LineAfter(ls[1..], base + if ls[0].tag == Added then 0 else 1)
  {
    if |ls| > 1 {
      assert ls[1..][..|ls[1..]| - 1] == ls[..|ls| - 1][1..];
      LineAfterCons(ls[..|ls| - 1], base);
    }
  }

  /** Spans that leave a region alone speak for every line of the hunk, also for insertions
      that follow a change and have no span of their own. */
  lemma {:induction false} UntouchedIsQuiet(ls: seq<HunkLine>, base: int, s: int, e: int)
    requires s <= e && Untouched(ls, base, s, e)
    ensures Quiet(ls, base, s, e) && SafeAfter(ls, base, s, e)
    decreases |ls|
  {
    if ls != [] {
      var init, x := ls[..|ls| - 1], ls[|ls| - 1];
      assert ls == init + [x];
      UntouchedPart(init, x, base, s, e);
      UntouchedIsQuiet(init, base, s, e);
      QuietPush(init, x, base, s, e);
      LastIsQuiet(init, x, base, s, e);
    }
  }

  lemma UntouchedPart(init: seq<HunkLine>, x: HunkLine, base: int, s: int, e: int)
    requires Untouched(init + [x], base, s, e)
    ensures Untouched(init, base, s, e)
  {
    assert (init + [x])[..|init|] == init;
  }

  lemma LastIsQuiet(init: seq<HunkLine>, x: HunkLine, base: int, s: int, e: int)
    requires s <= e && Untouched(init + [x], base, s, e) && SafeAfter(init, base, s, e)
    ensures Quiet([x], LineAfter(init, base), s, e) && SafeAfter(init + [x], base, s, e)
  {
    var ls, line := init + [x], LineAfter(init, base);
    assert ls[..|init|] == init && [x][1..] == [];
    if x.tag == Removed {
      assert Span(line, line) in SpansOf(ls, base);
    } else if x.tag == Added && (init == [] || init[|init| - 1].tag == Context) {
      assert Span(line, line - 1) in SpansOf(ls, base);
    }
  }

  /** Edit locality: a hunk whose changed spans touch no line of a region, applied where its
      old lines stand, leaves the region's lines contiguous and unchanged at their new place. */
  lemma EditIsLocal(lines: seq<string>, hunk: PatchHunk, start: nat, s: int, e: int)
    requires StandsAt(lines, OldLines(hunk.lines), start) && 1 <= s <= e <= |lines|
    requires Untouched(hunk.lines, start, s, e)
    ensures var after, shift := ApplyHunk(lines, hunk, start), Shift(hunk.lines, start, s);
      1 <= s + shift && e + shift <= |after| && after[s + shift - 1..e + shift] == lines[s - 1..e]
  {
    hide OldLines, NewLines, Shift, Untouched, Quiet, ApplyHunk;
    var block := OldLines(hunk.lines);
    var p, q := lines[..start - 1], lines[start - 1 + |block|..];
    AroundBlock(lines, block, start);
    UntouchedIsQuiet(hunk.lines, start, s, e);
    QuietHunkMoves(p, hunk.lines, q, s, e);
    HunkReplaces(p, hunk, q);
    StandsAsSlice(p + block + q, p + NewLines(hunk.lines) + q, s, e, Shift(hunk.lines, start, s));
  }

  /** Applied where its old lines stand, a hunk puts its new lines in their place. */
  lemma HunkReplaces(p: seq<string>, hunk: PatchHunk, q: seq<string>)
    ensures ApplyHunk(p + OldLines(hunk.lines) + q, hunk, |p| + 1) == p + NewLines(hunk.lines) + q
  {
    var lines := p + OldLines(hunk.lines) + q;
    assert lines[..|p|] == p && lines[|p| + |OldLines(hunk.lines)|..] == q;
  }

  lemma AroundBlock(lines: seq<string>, block: seq<string>, start: nat)
    requires StandsAt(lines, block, start)
    ensures lines == lines[..start - 1] + block + lines[start - 1 + |block|..]
  {
  }

  lemma StandsAsSlice(before: seq<string>, after: seq<string>, s: int, e: int, shift: int)
    requires Stands(before, after, s, e, shift)
    ensures after[s + shift - 1..e + shift] == before[s - 1..e]
  {
    var x, y := before[s - 1..e], after[s + shift - 1..e + shift];
    forall j | 0 <= j < |x|
      ensures x[j] == y[j]
    {
      assert before[s - 1 + j] == after[(s - 1 + j) + shift];
    }
  }

  /** Lines before the hunk stay where they are, lines after it move by the difference. */
  lemma {:induction false} ShiftOutside(ls: seq<HunkLine>, base: int, s: int)
    ensures s < base ==> Shift(ls, base, s) == 0
    ensures s >= base + |OldLines(ls)| ==> Shift(ls, base, s) == |NewLines(ls)| - |OldLines(ls)|
  {
    if ls != [] {
      ShiftOutside(ls[1..], base + if ls[0].tag == Added then 0 else 1, s);
    }
  }
}

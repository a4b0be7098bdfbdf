/** Cutting notes into sentences and outputs to size, without losing or repeating text. */
module Excerpts {
  import opened Text
  import opened Claims

  // ---------- sentences ----------

  datatype Stretch = Stretch(lo: nat, hi: nat)

  predicate IsStop(c: char) {
    c == '.' || c == '!' || c == '?'
  }

  /** A stop with whitespace after it ends a sentence. */
  predicate EndsAt(text: string, k: int) {
    0 <= k < |text| - 1 && (text[k] == '.' || text[k] == '!' || text[k] == '?') && IsSpace(text[k + 1])
  }

  /** Nonempty, and trimmed at both ends. */
  predicate TrimmedStretch(text: string, s: Stretch) {
    s.lo < s.hi <= |text| && !IsSpace(text[s.lo]) && !IsSpace(text[s.hi - 1])
  }

  predicate InOrder(ss: seq<Stretch>) {
    forall i, j | 0 <= i < j < |ss| :: ss[i].hi <= ss[j].lo
  }

  predicate Covered(ss: seq<Stretch>, k: int) {
    exists s | s in ss :: s.lo <= k < s.hi
  }

  /** Every character up to `n` that is not whitespace lies in a stretch. */
  predicate LosesNothing(text: string, ss: seq<Stretch>, n: nat)
    requires n <= |text|
  {
    forall k | 0 <= k < n && !IsSpace(text[k]) :: Covered(ss, k)
  }

  /** Inside a stretch no sentence ends before its last character. */
  predicate Whole(text: string, s: Stretch) {
    forall k | s.lo <= k < s.hi - 1 :: !EndsAt(text, k)
  }

  /** Trim a part of the text, as offsets. */
  method TrimPart(text: string, a: nat, b: nat) returns (lo: nat, hi: nat)
    requires a <= b <= |text|
    ensures a <= lo <= hi <= b
    ensures forall k | a <= k < b && !(lo <= k < hi) :: IsSpace(text[k])
    ensures lo < hi ==> !IsSpace(text[lo]) && !IsSpace(text[hi - 1])
  {
    lo := a;
    while lo < b && IsSpace(text[lo])
      invariant a <= lo <= b && forall k | a <= k < lo :: IsSpace(text[k])
    {
      lo := lo + 1;
    }
    hi := b;
    while lo < hi && IsSpace(text[hi - 1])
      invariant lo <= hi <= b && forall k | hi <= k < b :: IsSpace(text[k])
    {
      hi := hi - 1;
    }
  }

  lemma CoverPush(text: string, ss: seq<Stretch>, n: nat, m: nat, s: Stretch)
    requires n <= m <= |text| && LosesNothing(text, ss, n)
    requires forall k | n <= k < m && !(s.lo <= k < s.hi) :: IsSpace(text[k])
    ensures LosesNothing(text, ss + [s], m)
  {
    forall k | 0 <= k < m && !IsSpace(text[k])
      ensures Covered(ss + [s], k)
    {
      if k < n {
        var t :| t in ss && t.lo <= k < t.hi;
        assert t in ss + [s];
      } else {
        assert s in ss + [s];
      }
    }
  }

  lemma CoverStays(text: string, ss: seq<Stretch>, n: nat, m: nat)
    requires n <= m <= |text| && LosesNothing(text, ss, n) && forall k | n <= k < m :: IsSpace(text[k])
    ensures LosesNothing(text, ss, m)
  {
  }

  /** The sentences cut so far hold the text up to `start`. */
  ghost predicate CutUpTo(text: string, out: seq<string>, ss: seq<Stretch>, start: nat) {
    && start <= |text| && |out| == |ss| && InOrder(ss) && LosesNothing(text, ss, start)
    && (forall s | s in ss :: s.hi <= start)
    && forall i | 0 <= i < |ss| ::
      TrimmedStretch(text, ss[i]) && Whole(text, ss[i]) && out[i] == text[ss[i].lo..ss[i].hi]
  }

  lemma CutOne(text: string, out: seq<string>, ss: seq<Stretch>, start: nat, s: Stretch, n: nat)
    requires CutUpTo(text, out, ss, start) && start <= s.lo < s.hi <= n <= |text|
    requires TrimmedStretch(text, s) && Whole(text, s)
    requires forall k | start <= k < n && !(s.lo <= k < s.hi) :: IsSpace(text[k])
    ensures CutUpTo(text, out + [text[s.lo..s.hi]], ss + [s], n)
  {
    hide LosesNothing, Whole, IsSpace;
    CoverPush(text, ss, start, n, s);
    forall i | 0 <= i < |ss|
      ensures ss[i].hi <= s.lo
    {
      assert ss[i] in ss;
    }
  }

  /** The sentences of a text: ordered, disjoint, trimmed stretches that together hold every
      character that is not whitespace. Each ends where a stop is followed by whitespace, or is
      the last, and none runs past such a place. */
  ghost predicate Cuts(text: string, out: seq<string>, ss: seq<Stretch>) {
    CutUpTo(text, out, ss, |text|) && (ss != [] ==> AllEnd(text, ss[..|ss| - 1]))
  }

  ghost predicate AreSentences(text: string, out: seq<string>) {
    exists ss :: Cuts(text, out, ss)
  }

  method Sentences(text: string) returns (out: seq<string>)
    ensures AreSentences(text, out)
  {
    out := [];
    ghost var ss: seq<Stretch> := [];
    var start, index := 0, 0;
    while index < |text|
      invariant start <= index <= |text| && CutUpTo(text, out, ss, start) && AllEnd(text, ss)
      invariant NoEndIn(text, start, index)
      decreases |text| - index
    {
      if IsStop(text[index]) {
        var next := index + 1;
        if next < |text| && IsSpace(text[next]) {
          out, index, ss := CutSentence(text, out, ss, start, next);
          start := index;
          continue;
        }
      }
      index := index + 1;
    }
    out, ss := CutTail(text, out, ss, start);
    assert Cuts(text, out, ss);
  }

  predicate Stops(text: string, s: Stretch) {
    EndsAt(text, s.hi - 1)
  }

  predicate AllEnd(text: string, ss: seq<Stretch>) {
    forall i | 0 <= i < |ss| :: Stops(text, ss[i])
  }

  lemma AllEndPush(text: string, ss: seq<Stretch>, s: Stretch)
    requires AllEnd(text, ss)
    ensures AllEnd(text, (ss + [s])[..|ss|])
    ensures Stops(text, s) ==> AllEnd(text, ss + [s])
  {
    assert (ss + [s])[..|ss|] == ss;
  }

  predicate NoEndIn(text: string, from: int, to: int) {
    forall k | from <= k < to :: !EndsAt(text, k)
  }

  method CutTail(text: string, before: seq<string>, ghost stretches: seq<Stretch>, start: nat)
    returns (out: seq<string>, ghost ss: seq<Stretch>)
    requires CutUpTo(text, before, stretches, start) && AllEnd(text, stretches) && NoEndIn(text, start, |text|)
    ensures Cuts(text, out, ss)
  {
    var lo, hi := TrimPart(text, start, |text|);
    if lo < hi {
      TailIsWhole(text, start, lo, hi);
      hide CutUpTo, AllEnd, NoEndIn, IsSpace;
      CutOne(text, before, stretches, start, Stretch(lo, hi), |text|);
      AllEndPush(text, stretches, Stretch(lo, hi));
      out, ss := before + [text[lo..hi]], stretches + [Stretch(lo, hi)];
    } else {
      CoverStays(text, stretches, start, |text|);
      out, ss := before, stretches;
    }
  }

  lemma TailIsWhole(text: string, start: nat, lo: nat, hi: nat)
    requires start <= lo < hi <= |text| && NoEndIn(text, start, |text|) && !IsSpace(text[lo]) && !IsSpace(text[hi - 1])
    ensures TrimmedStretch(text, Stretch(lo, hi)) && Whole(text, Stretch(lo, hi))
  {
  }

  /** Add the sentence that ends before `next`, and skip the whitespace after it. */
  method CutSentence(text: string, before: seq<string>, ghost stretches: seq<Stretch>, start: nat, next: nat)
    returns (out: seq<string>, cursor: nat, ghost ss: seq<Stretch>)
    requires CutUpTo(text, before, stretches, start) && AllEnd(text, stretches)
    requires start < next < |text| && EndsAt(text, next - 1) && NoEndIn(text, start, next - 1)
    ensures next < cursor <= |text| && CutUpTo(text, out, ss, cursor) && AllEnd(text, ss)
  {
    var lo, hi := TrimPart(text, start, next);
    cursor := SkipSpace(text, next);
    EndIsKept(text, start, next, lo, hi);
    hide CutUpTo, AllEnd, EndsAt, NoEndIn, IsSpace;
    CutOne(text, before, stretches, start, Stretch(lo, hi), cursor);
    AllEndPush(text, stretches, Stretch(lo, hi));
    out, ss := before + [text[lo..hi]], stretches + [Stretch(lo, hi)];
  }

  /** Trimming a part that ends with a stop keeps the stop. */
  lemma EndIsKept(text: string, start: nat, next: nat, lo: nat, hi: nat)
    requires start < next < |text| && EndsAt(text, next - 1) && NoEndIn(text, start, next - 1)
    requires start <= lo <= hi <= next && forall k | start <= k < next && !(lo <= k < hi) :: IsSpace(text[k])
    requires lo < hi ==> !IsSpace(text[lo]) && !IsSpace(text[hi - 1])
    ensures lo < hi == next && TrimmedStretch(text, Stretch(lo, hi)) && Whole(text, Stretch(lo, hi)) && Stops(text, Stretch(lo, hi))
  {
    StopIsNotSpace(text[next - 1]);
  }

  method SkipSpace(text: string, next: nat) returns (cursor: nat)
    requires next < |text| && IsSpace(text[next])
    ensures next < cursor <= |text| && forall k | next <= k < cursor :: IsSpace(text[k])
  {
    cursor := next;
    while cursor < |text| && IsSpace(text[cursor])
      invariant next <= cursor <= |text| && forall k | next <= k < cursor :: IsSpace(text[k])
    {
      cursor := cursor + 1;
    }
  }

  lemma StopIsNotSpace(c: char)
    requires IsStop(c)
    ensures !IsSpace(c)
  {
  }

  /** The stretch that holds a character. */
  lemma HeldBy(text: string, out: seq<string>, ss: seq<Stretch>, k: nat) returns (j: nat)
    requires Cuts(text, out, ss) && k < |text| && !IsSpace(text[k])
    ensures j < |ss| && ss[j].lo <= k < ss[j].hi
  {
    assert Covered(ss, k);
    var s :| s in ss && s.lo <= k < s.hi;
    j :| 0 <= j < |ss| && ss[j] == s;
  }

  lemma StretchAt(text: string, out: seq<string>, ss: seq<Stretch>, i: nat)
    requires Cuts(text, out, ss) && i < |ss|
    ensures TrimmedStretch(text, ss[i]) && Whole(text, ss[i])
    ensures i < |ss| - 1 ==> Stops(text, ss[i])
    ensures forall j | i < j < |ss| :: ss[i].hi <= ss[j].lo
  {
    if i < |ss| - 1 {
      assert Stops(text, ss[..|ss| - 1][i]);
    }
  }

  /** Where two cuts agree so far, the next stretch of one does not start after the other's. */
  lemma StartsNoLater(text: string, out: seq<string>, ss: seq<Stretch>, other: seq<string>, ts: seq<Stretch>, i: nat)
    requires Cuts(text, out, ss) && Cuts(text, other, ts)
    requires i < |ss| && i <= |ts| && forall j | 0 <= j < i :: ss[j] == ts[j]
    ensures i < |ts| && ts[i].lo <= ss[i].lo
  {
    hide Cuts;
    StretchAt(text, out, ss, i);
    var j := HeldBy(text, other, ts, ss[i].lo);
    if j < i {
      StretchAt(text, out, ss, j);
      assert false;
    }
    StretchAt(text, other, ts, i);
  }

  lemma EndsNoEarlier(text: string, out: seq<string>, ss: seq<Stretch>, other: seq<string>, ts: seq<Stretch>, i: nat)
    requires Cuts(text, out, ss) && Cuts(text, other, ts)
    requires i < |ss| && i < |ts| && ss[i].lo == ts[i].lo
    ensures ts[i].hi <= ss[i].hi
  {
    hide Cuts;
    StretchAt(text, out, ss, i);
    StretchAt(text, other, ts, i);
    if ss[i].hi < ts[i].hi {
      assert !EndsAt(text, ss[i].hi - 1);
      var j := HeldBy(text, out, ss, ts[i].hi - 1);
      StretchAt(text, out, ss, j);
      assert false;
    }
  }

  lemma {:induction false} SameStretches(text: string, out: seq<string>, ss: seq<Stretch>, other: seq<string>, ts: seq<Stretch>, i: nat)
    requires Cuts(text, out, ss) && Cuts(text, other, ts)
    requires i <= |ss| && i <= |ts| && forall j | 0 <= j < i :: ss[j] == ts[j]
    ensures ss == ts
    decreases |ss| - i
  {
    hide Cuts;
    if i < |ss| {
      StartsNoLater(text, out, ss, other, ts, i);
      StartsNoLater(text, other, ts, out, ss, i);
      EndsNoEarlier(text, out, ss, other, ts, i);
      EndsNoEarlier(text, other, ts, out, ss, i);
      SameStretches(text, out, ss, other, ts, i + 1);
    } else if i < |ts| {
      StartsNoLater(text, other, ts, out, ss, i);
    }
  }

  /** The description leaves no choice: a text has one list of sentences. */
  lemma SentencesAreDetermined(text: string, out: seq<string>, other: seq<string>)
    requires AreSentences(text, out) && AreSentences(text, other)
    ensures out == other
  {
    var ss :| Cuts(text, out, ss);
    var ts :| Cuts(text, other, ts);
    SameStretches(text, out, ss, other, ts, 0);
  }

  // ---------- outputs cut to size ----------

  const MAX_OUTPUT_LINES: nat := 200
  const MAX_OUTPUT_CHARS: nat := 8000
  const TRUNCATION_MARK: string := "[output truncated]"

  /** `split('\n')`: one more piece than there are newlines. */
  function Pieces(s: string): (ps: seq<string>)
    ensures ps != []
  {
    if s == "" then [""]
    else
      var ps := Pieces(s[..|s| - 1]);
      if s[|s| - 1] == '\n' then ps + [""] else ps[..|ps| - 1] + [ps[|ps| - 1] + [s[|s| - 1]]]
  }

  /** `split_terminator('\n')`: no empty piece at the end. */
  function LinesOf(s: string): seq<string> {
    var ps := Pieces(s);
    if ps[|ps| - 1] == "" then ps[..|ps| - 1] else ps
  }

  function JoinLines(ls: seq<string>): string {
    if ls == [] then ""
    else if |ls| == 1 then ls[0]
    else JoinLines(ls[..|ls| - 1]) + "\n" + ls[|ls| - 1]
  }

  function FirstLines(ls: seq<string>): seq<string> {
    if |ls| > MAX_OUTPUT_LINES then ls[..MAX_OUTPUT_LINES] else ls
  }

  function FirstChars(s: string): string {
    if |s| > MAX_OUTPUT_CHARS then s[..MAX_OUTPUT_CHARS] else s
  }

  function Body(text: string): string {
    FirstChars(JoinLines(FirstLines(LinesOf(text))))
  }

  predicate Oversized(text: string) {
    |LinesOf(text)| > MAX_OUTPUT_LINES || |JoinLines(FirstLines(LinesOf(text)))| > MAX_OUTPUT_CHARS
  }

  function TruncateOutput(text: string): string {
    if Oversized(text) then Body(text) + "\n" + TRUNCATION_MARK else text
  }

  /** What one more character does to the pieces. */
  function AddChar(ps: seq<string>, c: char): seq<string>
    requires ps != []
  {
    if c == '\n' then ps + [""] else ps[..|ps| - 1] + [ps[|ps| - 1] + [c]]
  }

  lemma PiecesPush(s: string, c: char)
    ensures Pieces(s + [c]) == AddChar(Pieces(s), c)
  {
    assert (s + [c])[..|s|] == s;
  }

  lemma AddCharConcat(xs: seq<string>, ps: seq<string>, c: char)
    requires ps != []
    ensures AddChar(xs + ps, c) == xs + AddChar(ps, c)
  {
    assert (xs + ps)[..|xs + ps| - 1] == xs + ps[..|ps| - 1];
  }

  lemma {:induction false} PiecesConcat(a: string, b: string)
    ensures Pieces(a + "\n" + b) == Pieces(a) + Pieces(b)
    decreases |b|
  {
    if b == "" {
      assert a + "\n" + b == a + ['\n'];
      PiecesPush(a, '\n');
    } else {
      var init, c := b[..|b| - 1], b[|b| - 1];
      PiecesConcat(a, init);
      assert b == init + [c] && a + "\n" + b == (a + "\n" + init) + [c];
      PiecesPush(init, c);
      PiecesPush(a + "\n" + init, c);
      AddCharConcat(Pieces(a), Pieces(init), c);
    }
  }

  lemma {:induction false} PlainPiece(s: string)
    requires NoNewline(s)
    ensures Pieces(s) == [s]
  {
    if s != "" {
      PlainPiece(s[..|s| - 1]);
      assert s[..|s| - 1] + [s[|s| - 1]] == s;
    }
  }

  lemma {:induction false} JoinOfPieces(s: string)
    ensures JoinLines(Pieces(s)) == s && forall p | p in Pieces(s) :: NoNewline(p)
  {
    if s != "" {
      var init, c, ps := s[..|s| - 1], s[|s| - 1], Pieces(s[..|s| - 1]);
      JoinOfPieces(init);
      assert s == init + [c];
      if c == '\n' {
        JoinPush(ps, "");
      } else {
        JoinGrows(ps, [c]);
        assert ps[|ps| - 1] in ps && NoNewline(ps[|ps| - 1] + [c]);
      }
    }
  }

  lemma JoinPush(ls: seq<string>, l: string)
    requires ls != []
    ensures JoinLines(ls + [l]) == JoinLines(ls) + "\n" + l
  {
    assert (ls + [l])[..|ls|] == ls;
  }

  lemma JoinGrows(ps: seq<string>, more: string)
    requires ps != []
    ensures JoinLines(ps[..|ps| - 1] + [ps[|ps| - 1] + more]) == JoinLines(ps) + more
  {
    var init, last := ps[..|ps| - 1], ps[|ps| - 1];
    assert ps == init + [last];
    if init == [] {
      assert init + [last + more] == [last + more] && ps == [last];
    } else {
      JoinPush(init, last);
      JoinPush(init, last + more);
      ConcatGrows(JoinLines(init) + "\n", last, more);
    }
  }

  lemma ConcatGrows(a: string, b: string, c: string)
    ensures a + (b + c) == a + b + c
  {
  }

  lemma {:induction false} PiecesOfJoin(ls: seq<string>)
    requires ls != [] && forall l | l in ls :: NoNewline(l)
    ensures Pieces(JoinLines(ls)) == ls
  {
    hide NoNewline, JoinLines, Pieces;
    if |ls| == 1 {
      OneLine(ls[0]);
      assert ls == [ls[0]];
    } else {
      var init, last := ls[..|ls| - 1], ls[|ls| - 1];
      assert last in ls && forall l | l in init :: l in ls;
      PiecesOfJoin(init);
      JoinSplits(ls);
      PlainPiece(last);
      PiecesConcat(JoinLines(init), last);
      assert ls == init + [last];
    }
  }

  lemma JoinSplits(ls: seq<string>)
    requires |ls| > 1
    ensures JoinLines(ls) == JoinLines(ls[..|ls| - 1]) + "\n" + ls[|ls| - 1]
  {
  }

  lemma OneLine(l: string)
    requires NoNewline(l)
    ensures Pieces(JoinLines([l])) == [l]
  {
    PlainPiece(l);
  }

  lemma {:induction false} PrefixHasFewer(s: string, k: nat)
    requires k <= |s|
    ensures |Pieces(s[..k])| <= |Pieces(s)|
  {
    if k < |s| {
      PrefixHasFewer(s[..|s| - 1], k);
      assert s[..|s| - 1][..k] == s[..k];
    } else {
      assert s[..k] == s;
    }
  }

  /** The body of a cut output has at most 200 lines, and fewer only if it was cut to 8000
      characters. */
  lemma BodyIsSmall(text: string)
    ensures |Body(text)| <= MAX_OUTPUT_CHARS && |Pieces(Body(text))| <= MAX_OUTPUT_LINES
    ensures Oversized(text) && |Pieces(Body(text))| < MAX_OUTPUT_LINES ==> |Body(text)| == MAX_OUTPUT_CHARS
  {
    var ls := FirstLines(LinesOf(text));
    var joined := JoinLines(ls);
    JoinOfPieces(text);
    if ls != [] {
      PiecesOfJoin(ls);
    }
    if |joined| > MAX_OUTPUT_CHARS {
      PrefixHasFewer(joined, MAX_OUTPUT_CHARS);
    }
  }

  lemma MarkIsLine()
    ensures NoNewline(TRUNCATION_MARK) && TRUNCATION_MARK != ""
  {
  }

  lemma LinesOfMarked(body: string)
    ensures LinesOf(body + "\n" + TRUNCATION_MARK) == Pieces(body) + [TRUNCATION_MARK]
    ensures JoinLines(Pieces(body) + [TRUNCATION_MARK]) == body + "\n" + TRUNCATION_MARK
  {
    MarkIsLine();
    PiecesConcat(body, TRUNCATION_MARK);
    PlainPiece(TRUNCATION_MARK);
    JoinOfPieces(body);
    JoinPush(Pieces(body), TRUNCATION_MARK);
  }

  /** Truncating twice is truncating once. */
  lemma TruncationIsIdempotent(text: string)
    ensures TruncateOutput(TruncateOutput(text)) == TruncateOutput(text)
  {
    if Oversized(text) {
      var body := Body(text);
      BodyIsSmall(text);
      LinesOfMarked(body);
      MarkedStays(body);
    }
  }

  lemma MarkedStays(body: string)
    requires |body| <= MAX_OUTPUT_CHARS && |Pieces(body)| <= MAX_OUTPUT_LINES
    requires |Pieces(body)| < MAX_OUTPUT_LINES ==> |body| == MAX_OUTPUT_CHARS
    requires var marked := body + "\n" + TRUNCATION_MARK;
      LinesOf(marked) == Pieces(body) + [TRUNCATION_MARK] && JoinLines(Pieces(body) + [TRUNCATION_MARK]) == marked
    ensures TruncateOutput(body + "\n" + TRUNCATION_MARK) == body + "\n" + TRUNCATION_MARK
  {
    var marked := body + "\n" + TRUNCATION_MARK;
    if |Pieces(body)| == MAX_OUTPUT_LINES {
      assert FirstLines(LinesOf(marked)) == Pieces(body);
      JoinOfPieces(body);
    } else {
      assert marked[..MAX_OUTPUT_CHARS] == body;
    }
  }

  /** A truncated output has at most 201 lines, the mark last; a text that fits is untouched,
      and what is kept is a prefix of the joined lines. */
  lemma TruncationBounds(text: string)
    ensures var r := TruncateOutput(text);
      && (|LinesOf(text)| <= 200 && |JoinLines(LinesOf(text))| <= 8000 ==> r == text)
      && (!(|LinesOf(text)| <= 200 && |JoinLines(LinesOf(text))| <= 8000) ==>
            && r == Body(text) + "\n[output truncated]" && LinesOf(r) == Pieces(Body(text)) + ["[output truncated]"]
            && |Pieces(Body(text))| <= 200 && |Body(text)| <= 8000 && (|Pieces(Body(text))| == 200 || |Body(text)| == 8000))
  {
    hide Pieces, JoinLines;
    FewLines(text);
    if Oversized(text) {
      BodyIsSmall(text);
      LinesOfMarked(Body(text));
    }
  }

  lemma FewLines(text: string)
    ensures Oversized(text) <==> !(|LinesOf(text)| <= 200 && |JoinLines(LinesOf(text))| <= 8000)
  {
    hide Pieces, JoinLines;
    assert |LinesOf(text)| <= 200 ==> FirstLines(LinesOf(text)) == LinesOf(text);
  }

  lemma {:induction false} JoinPrefix(ls: seq<string>, k: nat)
    requires k <= |ls|
    ensures JoinLines(ls[..k]) <= JoinLines(ls)
  {
    if k < |ls| {
      JoinPrefix(ls[..|ls| - 1], k);
      assert ls[..|ls| - 1][..k] == ls[..k];
    } else {
      assert ls[..k] == ls;
    }
  }

  /** What a truncation keeps is a prefix of the text. */
  lemma BodyIsPrefix(text: string)
    ensures Body(text) <= text
  {
    var ps, ls := Pieces(text), LinesOf(text);
    JoinOfPieces(text);
    var k := if |ls| > MAX_OUTPUT_LINES then MAX_OUTPUT_LINES else |ls|;
    FirstLinesArePieces(text, k);
    JoinPrefix(ps, k);
    PrefixOfPrefix(JoinLines(FirstLines(ls)), text);
  }

  lemma FirstLinesArePieces(text: string, k: nat)
    requires var ls := LinesOf(text); k == if |ls| > MAX_OUTPUT_LINES then MAX_OUTPUT_LINES else |ls|
    ensures k <= |Pieces(text)| && FirstLines(LinesOf(text)) == Pieces(text)[..k]
  {
    var ls := LinesOf(text);
    assert FirstLines(ls) == ls[..k];
  }

  lemma PrefixOfPrefix(s: string, text: string)
    requires s <= text
    ensures FirstChars(s) <= text
  {
  }
}

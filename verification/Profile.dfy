/** Splicing a managed block into a shell profile: install, refresh, remove. */
module Profile {
  import opened Text
  import opened Claims

  const BEGIN_MARKER: string := "# >>> contextd >>>"
  const END_MARKER: string := "# <<< contextd <<<"

  datatype Outcome = Installed | Updated | AlreadyCurrent

  /** `str::find` from a position on. */
  function Find(s: string, t: string, from: nat): (r: Option<nat>)
    requires from <= |s|
    ensures r.Some? ==> from <= r.value && At(s, t, r.value) && forall i | from <= i < r.value :: !At(s, t, i)
    ensures r.None? ==> forall i | from <= i <= |s| :: !At(s, t, i)
    decreases |s| - from
  {
    if At(s, t, from) then Some(from)
    else if from == |s| then None
    else Find(s, t, from + 1)
  }

  /** A managed block; `body` stands for the shell or fish code around the socket path. */
  function Snippet(body: string): string {
    BEGIN_MARKER + body + END_MARKER + "\n"
  }

  /** The first match at or after `from`. */
  predicate FirstAt(s: string, t: string, from: nat, k: nat) {
    from <= k <= |s| && At(s, t, k) && forall i | from <= i < k :: !At(s, t, i)
  }

  /** The body does not end the block early. */
  predicate Clean(body: string) {
    FirstAt(Snippet(body), END_MARKER, 0, |BEGIN_MARKER| + |body|)
  }

  datatype Block = Block(start: nat, end: nat)

  function FindBlock(text: string): (b: Option<Block>)
    ensures b.Some? ==> b.value.start < b.value.end <= |text|
  {
    match Find(text, BEGIN_MARKER, 0)
    case None => None
    case Some(start) =>
      match Find(text, END_MARKER, start)
      case None => None
      case Some(at) =>
        var end := at + |END_MARKER|;
        Some(Block(start, if end < |text| && text[end] == '\n' then end + 1 else end))
  }

  predicate EndsWith(s: string, t: string) {
    |t| <= |s| && s[|s| - |t|..] == t
  }

  function Separator(existing: string): string {
    if existing == "" || EndsWith(existing, "\n\n") then ""
    else if EndsWith(existing, "\n") then "\n"
    else "\n\n"
  }

  function TrimNewlines(s: string): string {
    if s != "" && s[0] == '\n' then TrimNewlines(s[1..]) else s
  }

  /** The text after an install. */
  function AfterInstall(existing: string, snippet: string): string {
    match FindBlock(existing)
    case None => existing + Separator(existing) + snippet
    case Some(b) => existing[..b.start] + snippet + existing[b.end..]
  }

  function InstallOutcome(existing: string, snippet: string): Outcome {
    match FindBlock(existing)
    case None => Installed
    case Some(b) => if existing[b.start..b.end] == snippet then AlreadyCurrent else Updated
  }

  /** The text after an uninstall. */
  function AfterUninstall(existing: string): string {
    match FindBlock(existing)
    case None => existing
    case Some(b) => TrimEnd(existing[..b.start]) + "\n" + TrimNewlines(existing[b.end..])
  }

  lemma Parts(s: string, i: nat, j: nat)
    requires i <= j <= |s|
    ensures s[..i] + s[i..j] + s[j..] == s
  {
  }

  /** One profile on disk. */
  class ProfileFile {
    var text: Option<string>

    constructor (text: Option<string>)
      ensures this.text == text
    {
      this.text := text;
    }

    /** A file that cannot be read counts as empty. */
    function Read(): string
      reads this
    {
      if text.Some? then text.value else ""
    }

    method Install(snippet: string) returns (outcome: Outcome)
      modifies this
      ensures outcome == InstallOutcome(old(Read()), snippet)
      ensures outcome == AlreadyCurrent ==> text == old(text)
      ensures Read() == AfterInstall(old(Read()), snippet)
    {
      var existing := Read();
      var block := FindBlock(existing);
      if block.None? {
        text := Some(existing + Separator(existing) + snippet);
        return Installed;
      }
      var b := block.value;
      Parts(existing, b.start, b.end);
      if existing[b.start..b.end] == snippet {
        return AlreadyCurrent;
      }
      var updated := existing[..b.start];
      updated := updated + snippet;
      updated := updated + existing[b.end..];
      text := Some(updated);
      return Updated;
    }

    method Uninstall() returns (removed: bool)
      modifies this
      ensures removed <==> FindBlock(old(Read())).Some?
      ensures !removed ==> text == old(text)
      ensures Read() == AfterUninstall(old(Read()))
    {
      var existing := Read();
      var block := FindBlock(existing);
      if block.None? { return false; }
      var b := block.value;
      var updated := TrimEnd(existing[..b.start]);
      updated := updated + "\n";
      updated := updated + TrimNewlines(existing[b.end..]);
      text := Some(updated);
      return true;
    }
  }

  // ---------- where the block lands ----------

  lemma AtShift(a: string, s: string, t: string, i: nat)
    ensures At(a + s, t, |a| + i) <==> At(s, t, i)
  {
    if i + |t| <= |s| {
      assert (a + s)[|a| + i..|a| + i + |t|] == s[i..i + |t|];
    }
  }

  lemma AtPrefix(s: string, b: string, t: string, i: nat)
    requires i + |t| <= |s|
    ensures At(s + b, t, i) <==> At(s, t, i)
  {
    assert (s + b)[i..i + |t|] == s[i..i + |t|];
  }

  lemma FindIs(s: string, t: string, from: nat, k: nat)
    requires from <= |s|
    ensures Find(s, t, from) == Some(k) <==> FirstAt(s, t, from, k)
  {
  }

  /** Matches in a text are those of its tail, shifted. */
  lemma FirstAfter(a: string, s: string, t: string, k: nat)
    requires FirstAt(s, t, 0, k)
    ensures FirstAt(a + s, t, |a|, |a| + k)
  {
    AtShift(a, s, t, k);
    forall i | |a| <= i < |a| + k
      ensures !At(a + s, t, i)
    {
      AtShift(a, s, t, i - |a|);
    }
  }

  /** The block is fixed by its first markers. */
  lemma BlockIs(text: string, p: nat, k: nat)
    requires FirstAt(text, BEGIN_MARKER, 0, p) && FirstAt(text, END_MARKER, p, k)
    ensures var end := k + |END_MARKER|;
      FindBlock(text) == Some(Block(p, if end < |text| && text[end] == '\n' then end + 1 else end))
  {
    FindIs(text, BEGIN_MARKER, 0, p);
    FindIs(text, END_MARKER, p, k);
  }

  /** No match covers a newline. */
  lemma NotAcross(s: string, t: string, i: nat, j: nat)
    requires NoNewline(t) && i <= j < i + |t| && j < |s| && s[j] == '\n'
    ensures !At(s, t, i)
  {
    if i + |t| <= |s| {
      assert s[i..i + |t|][j - i] == s[j];
    }
  }

  lemma MarkersAreLines()
    ensures NoNewline(BEGIN_MARKER) && NoNewline(END_MARKER) && BEGIN_MARKER != "" && END_MARKER != ""
  {
  }

  lemma SnippetStarts(body: string, rest: string)
    ensures At(Snippet(body) + rest, BEGIN_MARKER, 0)
    ensures Snippet(body)[|Snippet(body)| - 1] == '\n'
  {
    assert (Snippet(body) + rest)[..|BEGIN_MARKER|] == BEGIN_MARKER;
  }

  /** A prefix that is empty or ends a line, and holds no begin marker, puts the first begin
      marker at the snippet. */
  lemma BeginAt(a: string, body: string, rest: string)
    requires (a == "" || a[|a| - 1] == '\n') && forall i: nat :: !At(a, BEGIN_MARKER, i)
    ensures FirstAt(a + (Snippet(body) + rest), BEGIN_MARKER, 0, |a|)
  {
    var s := Snippet(body) + rest;
    MarkersAreLines();
    SnippetStarts(body, rest);
    AtShift(a, s, BEGIN_MARKER, 0);
    forall i | 0 <= i < |a|
      ensures !At(a + s, BEGIN_MARKER, i)
    {
      if i + |BEGIN_MARKER| <= |a| {
        AtPrefix(a, s, BEGIN_MARKER, i);
      } else {
        NotAcross(a + s, BEGIN_MARKER, i, |a| - 1);
      }
    }
  }

  lemma EndAt(a: string, body: string, rest: string)
    requires Clean(body)
    ensures FirstAt(a + (Snippet(body) + rest), END_MARKER, |a|, |a| + |BEGIN_MARKER| + |body|)
  {
    var s, k := Snippet(body), |BEGIN_MARKER| + |body|;
    AtPrefix(s, rest, END_MARKER, k);
    forall i | 0 <= i < k
      ensures !At(s + rest, END_MARKER, i)
    {
      AtPrefix(s, rest, END_MARKER, i);
    }
    FirstAfter(a, s + rest, END_MARKER, k);
  }

  /** The block of a profile whose first begin marker is the snippet's is the snippet. */
  lemma BlockAt(a: string, body: string, rest: string)
    requires Clean(body) && FirstAt(a + (Snippet(body) + rest), BEGIN_MARKER, 0, |a|)
    ensures FindBlock(a + (Snippet(body) + rest)) == Some(Block(|a|, |a| + |Snippet(body)|))
    ensures var text := a + (Snippet(body) + rest);
      text[..|a|] == a && text[|a|..|a| + |Snippet(body)|] == Snippet(body) && text[|a| + |Snippet(body)|..] == rest
  {
    EndAt(a, body, rest);
    SnippetEnd(a, body, rest);
    hide Clean, FirstAt;
    BlockIs(a + (Snippet(body) + rest), |a|, |a| + |BEGIN_MARKER| + |body|);
  }

  lemma SnippetEnd(a: string, body: string, rest: string)
    ensures var text, s := a + (Snippet(body) + rest), Snippet(body);
      && |s| == |BEGIN_MARKER| + |body| + |END_MARKER| + 1 && text[|a| + |s| - 1] == '\n'
      && text[..|a|] == a && text[|a|..|a| + |s|] == s && text[|a| + |s|..] == rest
  {
    var text, s := a + (Snippet(body) + rest), Snippet(body);
    assert text[|a| + |s| - 1] == s[|s| - 1];
  }

  predicate HasBegin(text: string) {
    exists i: nat | i <= |text| :: At(text, BEGIN_MARKER, i)
  }

  /** A begin marker that no end marker follows. */
  predicate Dangling(text: string) {
    HasBegin(text) && FindBlock(text).None?
  }

  lemma SeparatorEndsLine(existing: string)
    ensures var a := existing + Separator(existing); a == "" || a[|a| - 1] == '\n'
    ensures TrimEnd(existing + Separator(existing)) == TrimEnd(existing)
  {
    var sep := Separator(existing);
    if sep == "\n" {
      assert (existing + sep)[..|existing|] == existing;
    } else if sep == "\n\n" {
      assert (existing + sep)[..|existing| + 1] == existing + "\n";
      assert (existing + "\n")[..|existing|] == existing;
    } else {
      assert existing + sep == existing;
      if existing != "" {
        assert existing[|existing| - 1] == existing[|existing| - 2..][1];
      }
    }
  }

  lemma PrefixHasNoBegin(existing: string)
    requires !HasBegin(existing)
    ensures forall i: nat :: !At(existing + Separator(existing), BEGIN_MARKER, i)
  {
    var sep := Separator(existing);
    MarkersAreLines();
    forall i: nat
      ensures !At(existing + sep, BEGIN_MARKER, i)
    {
      if i + |BEGIN_MARKER| <= |existing| {
        AtPrefix(existing, sep, BEGIN_MARKER, i);
      } else if i + |BEGIN_MARKER| <= |existing + sep| {
        NotAcross(existing + sep, BEGIN_MARKER, i, i + |BEGIN_MARKER| - 1);
      }
    }
  }

  lemma FreshBlock(a: string, body: string)
    requires (a == "" || a[|a| - 1] == '\n') && (forall i: nat :: !At(a, BEGIN_MARKER, i)) && Clean(body)
    ensures FindBlock(a + Snippet(body)) == Some(Block(|a|, |a + Snippet(body)|))
  {
    hide Clean, Snippet, FindBlock, At, FirstAt, BEGIN_MARKER;
    BeginAt(a, body, "");
    BlockAt(a, body, "");
    NoRest(a, Snippet(body));
  }

  lemma NoRest(a: string, s: string)
    ensures a + (s + "") == a + s && (a + s)[..|a|] == a && (a + s)[|a|..] == s && (a + s)[|a + s|..] == ""
  {
  }

  /** On a profile without the begin marker the snippet is appended after at most two
      newlines, and is then found exactly where it was put. */
  lemma FreshInstall(existing: string, body: string)
    requires !HasBegin(existing) && Clean(body)
    ensures var a, text := existing + Separator(existing), AfterInstall(existing, Snippet(body));
      text == a + Snippet(body) && FindBlock(text) == Some(Block(|a|, |text|))
      && text[..|a|] == a && text[|a|..] == Snippet(body)
  {
    var a := existing + Separator(existing);
    NoBeginNoBlock(existing);
    SeparatorEndsLine(existing);
    PrefixHasNoBegin(existing);
    FreshBlock(a, body);
    NoRest(a, Snippet(body));
  }

  /** Installing twice changes nothing the second time; installing for another socket rewrites
      only the block, as if it had been installed that way at once. */
  lemma Reinstall(existing: string, body: string, other: string)
    requires !HasBegin(existing) && Clean(body) && Clean(other)
    ensures var text := AfterInstall(existing, Snippet(body));
      && AfterInstall(text, Snippet(body)) == text && InstallOutcome(text, Snippet(body)) == AlreadyCurrent
      && AfterInstall(text, Snippet(other)) == AfterInstall(existing, Snippet(other))
      && (InstallOutcome(text, Snippet(other)) == AlreadyCurrent <==> other == body)
  {
    FreshInstall(existing, body);
    OverFresh(existing, body, other);
    OverFresh(existing, body, body);
    SameSnippet(body, other);
  }

  lemma OverFresh(existing: string, body: string, other: string)
    requires !HasBegin(existing) && Clean(body)
    ensures AfterInstall(AfterInstall(existing, Snippet(body)), Snippet(other)) == AfterInstall(existing, Snippet(other))
  {
    var a, text := existing + Separator(existing), AfterInstall(existing, Snippet(body));
    FreshInstall(existing, body);
    NoBeginNoBlock(existing);
    assert text[|text|..] == "";
    assert a + Snippet(other) + "" == a + Snippet(other);
  }

  lemma NoBeginNoBlock(existing: string)
    requires !HasBegin(existing)
    ensures FindBlock(existing).None?
  {
  }

  lemma SameSnippet(body: string, other: string)
    ensures Snippet(other) == Snippet(body) <==> other == body
  {
    if Snippet(other) == Snippet(body) {
      assert other == Snippet(other)[|BEGIN_MARKER|..|Snippet(other)| - |END_MARKER| - 1];
      assert body == Snippet(body)[|BEGIN_MARKER|..|Snippet(body)| - |END_MARKER| - 1];
    }
  }

  /** Removing what was installed leaves the profile with its trailing whitespace replaced by
      one newline. */
  lemma UninstallUndoes(existing: string, body: string)
    requires !HasBegin(existing) && Clean(body)
    ensures AfterUninstall(AfterInstall(existing, Snippet(body))) == TrimEnd(existing) + "\n"
  {
    var text := AfterInstall(existing, Snippet(body));
    FreshInstall(existing, body);
    SeparatorEndsLine(existing);
    assert text[|text|..] == "";
    assert TrimEnd(existing) + "\n" + "" == TrimEnd(existing) + "\n";
  }

  lemma {:induction false} TrimNewlinesIs(s: string, k: nat)
    requires k <= |s| && (forall i | 0 <= i < k :: s[i] == '\n') && (k == |s| || s[k] != '\n')
    ensures TrimNewlines(s) == s[k..]
  {
    if k > 0 {
      TrimNewlinesIs(s[1..], k - 1);
      assert s[1..][k - 1..] == s[k..];
    }
  }

  /** An uninstall takes the text from the first begin marker to the next end marker, with the
      newlines after it, and puts one newline for the whitespace before it. A text without
      such a pair of markers is left alone. */
  lemma UninstallCuts(text: string, p: nat, k: nat, j: nat)
    requires FirstAt(text, BEGIN_MARKER, 0, p) && FirstAt(text, END_MARKER, p, k)
    requires k + |END_MARKER| <= j <= |text| && (forall i | k + |END_MARKER| <= i < j :: text[i] == '\n')
    requires j == |text| || text[j] != '\n'
    ensures AfterUninstall(text) == TrimEnd(text[..p]) + "\n" + text[j..]
  {
    BlockIs(text, p, k);
    hide FirstAt, FindBlock, BEGIN_MARKER, TrimNewlines, TrimEnd, AfterUninstall;
    var end := FindBlock(text).value.end;
    TrimNewlinesIs(text[end..], j - end);
    assert text[end..][j - end..] == text[j..];
    CutBlock(text, p, end, text[j..]);
  }

  lemma CutBlock(text: string, p: nat, end: nat, tail: string)
    requires p < end <= |text| && FindBlock(text) == Some(Block(p, end)) && TrimNewlines(text[end..]) == tail
    ensures AfterUninstall(text) == TrimEnd(text[..p]) + "\n" + tail
  {
    hide FindBlock;
  }

  lemma UninstallNeedsBlock(text: string)
    requires forall p, k :: !(FirstAt(text, BEGIN_MARKER, 0, p) && FirstAt(text, END_MARKER, p, k))
    ensures AfterUninstall(text) == text
  {
    if FindBlock(text).Some? {
      var p := Find(text, BEGIN_MARKER, 0).value;
      var k := Find(text, END_MARKER, p).value;
      assert FirstAt(text, BEGIN_MARKER, 0, p) && FirstAt(text, END_MARKER, p, k);
    }
  }

  /** What an install reports: a new block exactly if there was none, and no change exactly if
      the text stays as it is. */
  lemma OutcomeIs(existing: string, snippet: string)
    ensures InstallOutcome(existing, snippet) == Installed <==>
      forall p, k :: !(FirstAt(existing, BEGIN_MARKER, 0, p) && FirstAt(existing, END_MARKER, p, k))
    ensures InstallOutcome(existing, snippet) == AlreadyCurrent ==> AfterInstall(existing, snippet) == existing
    ensures InstallOutcome(existing, snippet) == Updated ==> AfterInstall(existing, snippet) != existing
  {
    if FindBlock(existing).Some? {
      var p := Find(existing, BEGIN_MARKER, 0).value;
      var k := Find(existing, END_MARKER, p).value;
      assert FirstAt(existing, BEGIN_MARKER, 0, p) && FirstAt(existing, END_MARKER, p, k);
      BlockSwap(existing, FindBlock(existing).value, snippet);
    } else {
      forall p: nat, k: nat
        ensures !(FirstAt(existing, BEGIN_MARKER, 0, p) && FirstAt(existing, END_MARKER, p, k))
      {
        if FirstAt(existing, BEGIN_MARKER, 0, p) && FirstAt(existing, END_MARKER, p, k) {
          BlockIs(existing, p, k);
        }
      }
    }
  }

  /** Swapping a block changes the text exactly if the new block is another. */
  lemma BlockSwap(text: string, b: Block, snippet: string)
    requires b.start < b.end <= |text|
    ensures text[..b.start] + snippet + text[b.end..] == text <==> text[b.start..b.end] == snippet
  {
    var swapped := text[..b.start] + snippet + text[b.end..];
    Parts(text, b.start, b.end);
    if swapped == text {
      assert |snippet| == b.end - b.start;
      assert swapped[b.start..b.start + |snippet|] == snippet;
    }
  }

  /** A block put after `a`, and what the user wrote below it. */
  predicate Around(text: string, a: string, body: string, rest: string) {
    && text == a + Snippet(body) + rest && Clean(body)
    && (a == "" || a[|a| - 1] == '\n') && !HasBegin(a)
  }

  /** An uninstall keeps what stands below the block, from its first character that is no
      newline on. */
  lemma RestSurvives(text: string, a: string, body: string, rest: string, k: nat)
    requires Around(text, a, body, rest)
    requires k <= |rest| && (forall i | 0 <= i < k :: rest[i] == '\n') && (k == |rest| || rest[k] != '\n')
    ensures AfterUninstall(text) == TrimEnd(a) + "\n" + rest[k..]
  {
    hide Around, FindBlock, TrimNewlines, AfterUninstall, TrimEnd, Snippet;
    FoundBlock(text, a, body, rest);
    TrimNewlinesIs(rest, k);
    CutOut(text, a, |a| + |Snippet(body)|, rest, rest[k..]);
  }

  /** Installing another body replaces the block and nothing else. */
  lemma OnlyBlockChanges(text: string, a: string, body: string, rest: string, other: string)
    requires Around(text, a, body, rest)
    ensures AfterInstall(text, Snippet(other)) == a + Snippet(other) + rest
  {
    hide Around, FindBlock, AfterInstall, Snippet;
    FoundBlock(text, a, body, rest);
    PutIn(text, a, |a| + |Snippet(body)|, rest, Snippet(other));
  }

  lemma FoundBlock(text: string, a: string, body: string, rest: string)
    requires Around(text, a, body, rest)
    ensures var end := |a| + |Snippet(body)|;
      |a| < end <= |text| && FindBlock(text) == Some(Block(|a|, end)) && text[..|a|] == a && text[end..] == rest
  {
    NoBeginAnywhere(a);
    hide Clean, Snippet, FindBlock, At, FirstAt, BEGIN_MARKER, HasBegin;
    BeginAt(a, body, rest);
    BlockAt(a, body, rest);
    LeftAlign(a, Snippet(body), rest);
  }

  lemma NoBeginAnywhere(a: string)
    requires !HasBegin(a)
    ensures forall i: nat :: !At(a, BEGIN_MARKER, i)
  {
  }

  lemma LeftAlign(a: string, s: string, rest: string)
    ensures a + s + rest == a + (s + rest)
  {
  }

  lemma CutOut(text: string, a: string, end: nat, rest: string, tail: string)
    requires |a| < end <= |text| && FindBlock(text) == Some(Block(|a|, end)) && text[..|a|] == a && text[end..] == rest
    requires TrimNewlines(rest) == tail
    ensures AfterUninstall(text) == TrimEnd(a) + "\n" + tail
  {
    hide FindBlock;
  }

  lemma PutIn(text: string, a: string, end: nat, rest: string, other: string)
    requires |a| < end <= |text| && FindBlock(text) == Some(Block(|a|, end)) && text[..|a|] == a && text[end..] == rest
    ensures AfterInstall(text, other) == a + other + rest
  {
    hide FindBlock;
  }

  /** What an install puts before a new block: the fewest newlines that leave a blank line. */
  lemma SeparatorIs(existing: string)
    ensures var sep := Separator(existing);
      if existing == "" then sep == ""
      else
        && (forall c | c in sep :: c == '\n') && EndsWith(existing + sep, "\n\n")
        && (sep != "" ==> !EndsWith(existing + sep[1..], "\n\n"))
  {
    assert existing + "" == existing;
    LastTwo(existing, '\n');
    if existing != "" {
      OneMore(existing);
      if !EndsWith(existing, "\n") {
        TwoMore(existing);
      }
    }
  }

  lemma LastTwo(s: string, c: char)
    ensures EndsWith(s, [c, c]) <==> |s| >= 2 && s[|s| - 2] == s[|s| - 1] == c
    ensures EndsWith(s, [c]) <==> |s| >= 1 && s[|s| - 1] == c
  {
    if |s| >= 2 {
      assert s[|s| - 2..] == [s[|s| - 2], s[|s| - 1]];
    }
    if |s| >= 1 {
      assert s[|s| - 1..] == [s[|s| - 1]];
    }
  }

  lemma OneMore(s: string)
    requires s != ""
    ensures EndsWith(s + "\n", "\n\n") <==> EndsWith(s, "\n")
  {
    hide EndsWith;
    LastTwo(s, '\n');
    LastTwo(s + "\n", '\n');
  }

  lemma TwoMore(s: string)
    ensures EndsWith(s + "\n\n", "\n\n") && "\n\n"[1..] == "\n" && "\n"[1..] == ""
  {
    hide EndsWith;
    LastTwo(s + "\n\n", '\n');
  }

  // ---------- profiles that already hold markers ----------

  lemma AtAgrees(x: string, y: string, t: string, i: nat)
    requires i + |t| <= |x| && i + |t| <= |y| && forall j | i <= j < i + |t| :: x[j] == y[j]
    ensures At(x, t, i) <==> At(y, t, i)
  {
    assert x[i..i + |t|] == y[i..i + |t|];
  }

  lemma AtChar(s: string, t: string, k: nat)
    requires At(s, t, 0) && k < |t|
    ensures k < |s| && s[k] == t[k]
  {
    assert s[0..|t|][k] == s[k];
  }

  lemma SameStart(p: string, s: string, t: string, m: string, i: nat)
    requires At(s, m, 0) && At(t, m, 0) && i < |p|
    ensures At(p + s, m, i) <==> At(p + t, m, i)
  {
    forall j | i <= j < i + |m|
      ensures (p + s)[j] == (p + t)[j]
    {
      if j >= |p| {
        AtChar(s, m, j - |p|);
        AtChar(t, m, j - |p|);
      }
    }
    AtAgrees(p + s, p + t, m, i);
  }

  lemma SwapTail(p: string, s: string, t: string)
    requires FirstAt(p + t, BEGIN_MARKER, 0, |p|) && At(s, BEGIN_MARKER, 0)
    ensures FirstAt(p + s, BEGIN_MARKER, 0, |p|)
  {
    AtShift(p, t, BEGIN_MARKER, 0);
    AtShift(p, s, BEGIN_MARKER, 0);
    forall i | 0 <= i < |p|
      ensures !At(p + s, BEGIN_MARKER, i)
    {
      SameStart(p, s, t, BEGIN_MARKER, i);
    }
  }

  lemma BlockStart(text: string, b: Block)
    requires FindBlock(text) == Some(b)
    ensures FirstAt(text, BEGIN_MARKER, 0, b.start)
  {
  }

  /** Refreshing an existing block puts the new block in its place. */
  lemma RefreshedBlock(p: string, t: string, rest: string, body: string)
    requires FirstAt(p + t, BEGIN_MARKER, 0, |p|) && Clean(body)
    ensures var text := p + (Snippet(body) + rest);
      FindBlock(text) == Some(Block(|p|, |p| + |Snippet(body)|))
      && text[|p|..|p| + |Snippet(body)|] == Snippet(body)
  {
    SnippetStarts(body, rest);
    SwapTail(p, Snippet(body) + rest, t);
    BlockAt(p, body, rest);
  }

  /** A second install is a no-op exactly when the profile held no dangling begin marker. With
      one, the first install appends a block, and the second takes everything from the dangling
      marker to the end of that block for the block and rewrites it. */
  lemma SecondInstallIsNoopIffNotDangling(existing: string, body: string)
    requires Clean(body)
    ensures var text := AfterInstall(existing, Snippet(body));
      AfterInstall(text, Snippet(body)) == text <==> !Dangling(existing)
  {
    if FindBlock(existing).Some? {
      BlockIsRefreshed(existing, body);
    } else if HasBegin(existing) {
      hide AfterInstall, FindBlock, Clean;
      DanglingBlock(existing, body);
    } else {
      hide AfterInstall, FindBlock, Clean;
      Reinstall(existing, body, body);
    }
  }

  lemma BlockIsRefreshed(existing: string, body: string)
    requires Clean(body) && FindBlock(existing).Some?
    ensures var text := AfterInstall(existing, Snippet(body)); AfterInstall(text, Snippet(body)) == text
  {
    hide Clean, Snippet;
    var b := FindBlock(existing).value;
    var head, rest, snippet := existing[..b.start], existing[b.end..], Snippet(body);
    BlockStart(existing, b);
    assert existing == head + existing[b.start..];
    RefreshedBlock(head, existing[b.start..], rest, body);
    hide FindBlock;
    var text := head + (snippet + rest);
    assert head + snippet + rest == text;
    var n := |head| + |snippet|;
    assert text == text[..|head|] + text[|head|..n] + text[n..];
  }

  lemma BeginAlone()
    ensures Dangling(BEGIN_MARKER)
  {
    assert At(BEGIN_MARKER, BEGIN_MARKER, 0);
  }

  /** A profile that is the begin marker and nothing else: the second install cuts it short. */
  lemma BeginAloneIsRewritten(body: string)
    requires Clean(body)
    ensures var text := AfterInstall(BEGIN_MARKER, Snippet(body));
      |AfterInstall(text, Snippet(body))| < |text|
  {
    BeginAlone();
    DanglingBlock(BEGIN_MARKER, body);
  }

  lemma DanglingBlock(existing: string, body: string)
    requires Dangling(existing) && Clean(body)
    ensures var text := AfterInstall(existing, Snippet(body));
      |AfterInstall(text, Snippet(body))| < |text|
  {
    var a := existing + Separator(existing);
    var text := a + Snippet(body);
    var p := Find(existing, BEGIN_MARKER, 0).value;
    FindIs(existing, BEGIN_MARKER, 0, p);
    DanglingBegin(existing, body, p);
    EndAt(a, body, "");
    assert a + (Snippet(body) + "") == text;
    forall i | p <= i < |a|
      ensures !At(text, END_MARKER, i)
    {
      NoEndBefore(existing, body, p, i);
    }
    var k := |a| + |BEGIN_MARKER| + |body|;
    SnippetStarts(body, "");
    assert text[|text| - 1] == Snippet(body)[|Snippet(body)| - 1];
    BlockIs(text, p, k);
  }

  lemma DanglingBegin(existing: string, body: string, p: nat)
    requires FirstAt(existing, BEGIN_MARKER, 0, p)
    ensures FirstAt(existing + Separator(existing) + Snippet(body), BEGIN_MARKER, 0, p)
  {
    var rest := Separator(existing) + Snippet(body);
    var text := existing + rest;
    assert existing + Separator(existing) + Snippet(body) == text;
    AtPrefix(existing, rest, BEGIN_MARKER, p);
    forall i | 0 <= i < p
      ensures !At(text, BEGIN_MARKER, i)
    {
      AtPrefix(existing, rest, BEGIN_MARKER, i);
    }
  }

  /** A newline keeps the old text from completing an end marker with what follows. */
  lemma NoEndBefore(existing: string, body: string, p: nat, i: nat)
    requires FirstAt(existing, BEGIN_MARKER, 0, p) && FindBlock(existing).None?
    requires p <= i < |existing + Separator(existing)|
    ensures !At(existing + Separator(existing) + Snippet(body), END_MARKER, i)
  {
    var sep := Separator(existing);
    var text := existing + sep + Snippet(body);
    assert text == existing + (sep + Snippet(body));
    MarkersAreLines();
    if i + |END_MARKER| <= |existing| {
      FindIs(existing, BEGIN_MARKER, 0, p);
      AtPrefix(existing, sep + Snippet(body), END_MARKER, i);
    } else {
      var j := if i >= |existing| then i else if sep != "" then |existing| else |existing| - 1;
      assert text[j] == '\n' by {
        if sep == "" {
          assert existing[|existing| - 1] == existing[|existing| - 2..][1];
        }
      }
      NotAcross(text, END_MARKER, i, j);
    }
  }
}

/** Text primitives shared by the projector, the handoff and the briefing. */
module Text {

  /** `char::is_whitespace`: the White_Space property of Unicode. */
  predicate IsSpace(c: char) {
    var n := c as int;
    || 0x9 <= n <= 0xD || n == 0x20 || n == 0x85 || n == 0xA0 || n == 0x1680
    || 0x2000 <= n <= 0x200A || n == 0x2028 || n == 0x2029 || n == 0x202F
    || n == 0x205F || n == 0x3000
  }

  predicate AllSpace(s: string) {
    forall i | 0 <= i < |s| :: IsSpace(s[i])
  }

  predicate NoSpace(s: string) {
    forall i | 0 <= i < |s| :: !IsSpace(s[i])
  }

  function TrimStart(s: string): string {
    if s == "" then "" else if IsSpace(s[0]) then TrimStart(s[1..]) else s
  }

  function TrimEnd(s: string): string {
    if s == "" then "" else if IsSpace(s[|s| - 1]) then TrimEnd(s[..|s| - 1]) else s
  }

  lemma {:induction false} TrimStartFacts(s: string)
    ensures var r := TrimStart(s);
      && |r| <= |s| && r == s[|s| - |r|..] && AllSpace(s[..|s| - |r|])
      && (r == "" || !IsSpace(r[0]))
  {
    if s != "" && IsSpace(s[0]) {
      TrimStartFacts(s[1..]);
      var k := |s| - |TrimStart(s)|;
      assert s[1..][k - 1..] == s[k..];
      forall i | 0 <= i < k
        ensures IsSpace(s[..k][i])
      {
        if i > 0 {
          assert s[1..][..k - 1][i - 1] == s[i];
        }
      }
    }
  }

  lemma {:induction false} TrimEndFacts(s: string)
    ensures var r := TrimEnd(s);
      |r| <= |s| && r == s[..|r|] && AllSpace(s[|r|..]) && (r == "" || !IsSpace(r[|r| - 1]))
  {
    if s != "" && IsSpace(s[|s| - 1]) {
      var init, k := s[..|s| - 1], |TrimEnd(s)|;
      TrimEndFacts(init);
      assert init[..k] == s[..k];
      forall i | 0 <= i < |s| - k
        ensures IsSpace(s[k..][i])
      {
        if i < |init| - k {
          assert init[k..][i] == s[k + i];
        }
      }
    }
  }

  function Trim(s: string): string {
    TrimEnd(TrimStart(s))
  }

  lemma TrimSolid(s: string)
    requires s != "" && !IsSpace(s[0]) && !IsSpace(s[|s| - 1])
    ensures Trim(s) == s
  {
  }

  lemma TrimKeeps(s: string)
    ensures Trim(Trim(s)) == Trim(s)
  {
    var t := Trim(s);
    TrimStartFacts(s);
    TrimEndFacts(TrimStart(s));
    if t != "" {
      assert t[0] == TrimStart(s)[0];
    }
  }

  /** Length of the leading run of non-space characters. */
  function WordLength(s: string): nat {
    if s == "" || IsSpace(s[0]) then 0 else 1 + WordLength(s[1..])
  }

  lemma {:induction false} WordLengthFacts(s: string)
    ensures var n := WordLength(s);
      n <= |s| && NoSpace(s[..n]) && (n < |s| ==> IsSpace(s[n])) && (s != "" && !IsSpace(s[0]) ==> n > 0)
  {
    if s != "" && !IsSpace(s[0]) {
      WordLengthFacts(s[1..]);
      var n := WordLength(s);
      assert s[..n] == [s[0]] + s[1..][..n - 1];
    }
  }

  predicate IsWord(w: string) {
    w != "" && NoSpace(w)
  }

  /** `split_whitespace`. */
  function Words(s: string): seq<string>
    decreases |s|
  {
    if s == "" then []
    else if IsSpace(s[0]) then Words(s[1..])
    else
      WordLengthFacts(s);
      [s[..WordLength(s)]] + Words(s[WordLength(s)..])
  }

  lemma {:induction false} WordsAreWords(s: string)
    ensures forall w | w in Words(s) :: IsWord(w)
    decreases |s|
  {
    if s != "" {
      if IsSpace(s[0]) {
        WordsAreWords(s[1..]);
      } else {
        WordLengthFacts(s);
        WordsAreWords(s[WordLength(s)..]);
      }
    }
  }

  function JoinWords(ws: seq<string>): string {
    if |ws| == 0 then ""
    else if |ws| == 1 then ws[0]
    else ws[0] + " " + JoinWords(ws[1..])
  }

  /** Runs of whitespace become one blank; the ends are dropped. */
  function Collapse(s: string): string {
    JoinWords(Words(s))
  }

  lemma {:induction false} WordLengthIs(w: string, rest: string)
    requires NoSpace(w) && (rest == "" || IsSpace(rest[0]))
    ensures WordLength(w + rest) == |w|
  {
    if w == "" {
      assert w + rest == rest;
    } else {
      assert NoSpace(w[1..]);
      assert (w + rest)[1..] == w[1..] + rest;
      WordLengthIs(w[1..], rest);
    }
  }

  /** One word followed by the end or by a blank is split off whole. */
  lemma WordsStep(w: string, rest: string)
    requires IsWord(w) && (rest == "" || IsSpace(rest[0]))
    ensures Words(w + rest) == [w] + Words(rest)
  {
    WordLengthIs(w, rest);
    assert (w + rest)[..|w|] == w && (w + rest)[|w|..] == rest;
  }

  lemma {:induction false} WordsOfSpace(pad: string, s: string)
    requires AllSpace(pad)
    ensures Words(pad + s) == Words(s)
  {
    if pad == "" {
      assert pad + s == s;
    } else {
      assert (pad + s)[1..] == pad[1..] + s;
      WordsOfSpace(pad[1..], s);
    }
  }

  lemma {:induction false} WordsOfTrailingSpace(s: string, pad: string)
    requires AllSpace(pad)
    ensures Words(s + pad) == Words(s)
    decreases |s|
  {
    if s == "" {
      WordsOfSpace(pad, "");
      assert s + pad == pad + "" == pad;
    } else if IsSpace(s[0]) {
      assert (s + pad)[1..] == s[1..] + pad;
      WordsOfTrailingSpace(s[1..], pad);
    } else {
      WordLengthFacts(s);
      var w, rest := s[..WordLength(s)], s[WordLength(s)..];
      var tail := rest + pad;
      assert s == w + rest && s + pad == w + tail;
      assert tail == "" || IsSpace(tail[0]) by {
        if rest == "" {
          assert tail == pad;
        }
      }
      WordsStep(w, tail);
      WordsOfTrailingSpace(rest, pad);
    }
  }

  /** Trimming never changes the words. */
  lemma WordsOfTrim(s: string)
    ensures Words(Trim(s)) == Words(s)
    ensures Trim(s) == "" <==> Words(s) == []
  {
    var a := TrimStart(s);
    var b := TrimEnd(a);
    TrimStartFacts(s);
    TrimEndFacts(a);
    assert s == s[..|s| - |a|] + a && a == b + a[|b|..];
    WordsOfSpace(s[..|s| - |a|], a);
    WordsOfTrailingSpace(b, a[|b|..]);
    if b != "" {
      assert b[0] == a[0];
    }
  }

  lemma {:induction false} WordsOfJoin(ws: seq<string>)
    requires forall w | w in ws :: IsWord(w)
    ensures Words(JoinWords(ws)) == ws
  {
    if |ws| == 0 {
    } else if |ws| == 1 {
      WordsStep(ws[0], "");
      assert ws[0] + "" == ws[0];
      assert ws == [ws[0]];
    } else {
      var tail := JoinWords(ws[1..]);
      assert JoinWords(ws) == ws[0] + (" " + tail);
      WordsStep(ws[0], " " + tail);
      WordsOfSpace(" ", tail);
      WordsOfJoin(ws[1..]);
    }
  }

  /** Collapsing forgets trimming and is idempotent. */
  lemma CollapseStable(s: string)
    ensures Collapse(Trim(s)) == Collapse(s)
    ensures Collapse(Collapse(s)) == Collapse(s)
    ensures Collapse(s) == "" <==> Trim(s) == ""
  {
    WordsOfTrim(s);
    WordsAreWords(s);
    WordsOfJoin(Words(s));
    JoinShape(Words(s));
  }

  predicate NoNewline(s: string) {
    forall i | 0 <= i < |s| :: s[i] != '\n'
  }

  /** Joined words hold no newline, and end in a non-space unless empty. */
  lemma {:induction false} JoinShape(ws: seq<string>)
    requires forall w | w in ws :: IsWord(w)
    ensures NoNewline(JoinWords(ws))
    ensures JoinWords(ws) == "" <==> ws == []
    ensures ws != [] ==> !IsSpace(JoinWords(ws)[|JoinWords(ws)| - 1])
  {
    if |ws| >= 1 {
      assert IsWord(ws[0]);
      if |ws| > 1 {
        JoinShape(ws[1..]);
      }
    }
  }

  predicate At(s: string, t: string, i: nat) {
    i + |t| <= |s| && s[i..i + |t|] == t
  }

  predicate Contains(s: string, t: string) {
    exists i | 0 <= i <= |s| :: At(s, t, i)
  }

  /** Bytes of one character in UTF-8, section 3 of RFC 3629. */
  function CharBytes(c: char): nat {
    var n := c as int;
    if n < 0x80 then 1 else if n < 0x800 then 2 else if n < 0x1_0000 then 3 else 4
  }

  function ByteLength(s: string): nat {
    if s == "" then 0 else ByteLength(s[..|s| - 1]) + CharBytes(s[|s| - 1])
  }

  /** Byte order of UTF-8 text, which is the order of code points. */
  predicate Less(a: string, b: string) {
    if b == "" then false
    else if a == "" then true
    else a[0] < b[0] || (a[0] == b[0] && Less(a[1..], b[1..]))
  }

  lemma {:induction false} LessTotal(a: string, b: string)
    ensures a == b || Less(a, b) || Less(b, a)
    ensures !(Less(a, b) && Less(b, a))
    ensures !Less(a, a)
  {
    if a != "" && b != "" {
      LessTotal(a[1..], b[1..]);
      LessTotal(a[1..], a[1..]);
      if a[0] == b[0] && a[1..] == b[1..] {
        assert a == [a[0]] + a[1..] && b == [b[0]] + b[1..];
      }
    } else if a != "" {
      LessTotal(a[1..], a[1..]);
    }
  }

  /** The texts agree before `k`, and `a` has the smaller character there. */
  predicate SmallerAt(a: string, b: string, k: nat) {
    k < |a| && k < |b| && a[..k] == b[..k] && a[k] < b[k]
  }

  lemma SmallerAtTail(a: string, b: string, k: nat)
    requires a != "" && b != "" && a[0] == b[0]
    ensures SmallerAt(a, b, k) <==> k > 0 && SmallerAt(a[1..], b[1..], k - 1)
  {
    if 0 < k < |a| && k < |b| {
      assert a[..k] == [a[0]] + a[1..][..k - 1] && b[..k] == [b[0]] + b[1..][..k - 1];
      if a[..k] == b[..k] {
        assert a[1..][..k - 1] == a[..k][1..] && b[1..][..k - 1] == b[..k][1..];
      }
    }
  }

  lemma BeginningTail(a: string, b: string)
    requires a != "" && b != "" && |a| < |b|
    ensures b[..|a|] == a <==> a[0] == b[0] && b[1..][..|a| - 1] == a[1..]
  {
    assert a == [a[0]] + a[1..] && b[..|a|] == [b[0]] + b[1..][..|a| - 1];
  }

  /** A text is less if it is a proper beginning of the other, or has the smaller character
      where they first differ. */
  lemma {:induction false} LessIs(a: string, b: string)
    ensures Less(a, b) <==> (|a| < |b| && b[..|a|] == a) || exists k: nat :: SmallerAt(a, b, k)
  {
    if a != "" && b != "" {
      hide SmallerAt;
      if |a| < |b| {
        BeginningTail(a, b);
      }
      if a[0] == b[0] {
        LessIs(a[1..], b[1..]);
        if k: nat :| SmallerAt(a[1..], b[1..], k) {
          SmallerAtTail(a, b, k + 1);
        }
        if k: nat :| SmallerAt(a, b, k) {
          SmallerAtTail(a, b, k);
        }
      } else {
        FirstDiffers(a, b);
      }
    }
  }

  lemma FirstDiffers(a: string, b: string)
    requires a != "" && b != "" && a[0] != b[0]
    ensures a[0] < b[0] <==> exists k: nat :: SmallerAt(a, b, k)
  {
    if a[0] < b[0] {
      assert SmallerAt(a, b, 0);
    }
    forall k: nat | 0 < k < |a| && k < |b|
      ensures a[..k] != b[..k]
    {
      assert a[..k][0] == a[0] && b[..k][0] == b[0];
    }
  }

  lemma {:induction false} LessTransitive(a: string, b: string, c: string)
    requires Less(a, b) && Less(b, c)
    ensures Less(a, c)
  {
    if a != "" && b[0] == a[0] && c[0] == b[0] {
      LessTransitive(a[1..], b[1..], c[1..]);
    }
  }
}

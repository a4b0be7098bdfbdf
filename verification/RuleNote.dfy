/** A text of 27 sentences that each say to keep a signature, and what reading it finds. */
module RuleNote {
  import opened Text
  import opened Claims
  import opened Excerpts

  function Letter(i: nat): char {
    if i < 26 then ('a' as int + i) as char else '0'
  }

  const HEAD := "keep the signature "

  /** A sentence that the phrase matcher for constraints takes: it says to keep a signature. */
  function Rule(i: nat): string {
    HEAD + ([Letter(i)] + ".")
  }

  /** Rules `i` to 26, one blank between two. */
  function Rules(i: nat): string
    decreases 27 - i
  {
    if i >= 26 then Rule(i) else Rule(i) + " " + Rules(i + 1)
  }

  // ---------- its sentences ----------

  lemma RuleShape(i: nat)
    ensures |Rule(i)| == 21 && Rule(i)[0] == 'k' && Rule(i)[19] == Letter(i) && Rule(i)[20] == '.'
    ensures forall j | 0 <= j < 20 :: !IsStop(Rule(i)[j])
  {
    assert forall c | c in HEAD :: !IsStop(c);
    forall j | 0 <= j < 20
      ensures !IsStop(Rule(i)[j])
    {
      if j < 19 {
        assert Rule(i)[j] == HEAD[j] && HEAD[j] in HEAD;
      }
    }
  }

  /** The 27 rules in order, each at its place, one blank between two. */
  predicate IsRuleText(text: string) {
    |text| == 593 && forall k | 0 <= k < 27 :: RuleAt(text, k)
  }

  predicate RuleAt(text: string, k: nat)
    requires |text| == 593 && k < 27
  {
    text[22 * k..22 * k + 21] == Rule(k) && (k < 26 ==> text[22 * k + 21] == ' ')
  }

  lemma {:induction false} RulesAt(i: nat, k: nat)
    requires i <= k <= 26
    ensures |Rules(i)| == 22 * (27 - i) - 1
    ensures Rules(i)[22 * (k - i)..22 * (k - i) + 21] == Rule(k)
    ensures k < 26 ==> Rules(i)[22 * (k - i) + 21] == ' '
    decreases 27 - i
  {
    hide Rule;
    RuleShape(i);
    if i < 26 {
      RulesAt(i + 1, if k == i then i + 1 else k);
      if k > i {
        var n, rest := 22 * (k - i - 1), Rules(i + 1);
        assert Rules(i)[n + 22..n + 43] == rest[n..n + 21];
        assert k < 26 ==> Rules(i)[n + 43] == rest[n + 21];
      }
    }
  }

  lemma RulesAreText(i: nat)
    requires i == 0
    ensures IsRuleText(Rules(i))
  {
    hide Rules, Rule;
    RulesAt(i, 26);
    forall k: nat | k < 27
      ensures RuleAt(Rules(i), k)
    {
      RulesAt(i, k);
    }
  }

  lemma RuleChar(text: string, k: nat, j: nat)
    requires IsRuleText(text) && k < 27 && j < 21
    ensures |Rule(k)| == 21 && text[22 * k + j] == Rule(k)[j]
  {
    hide Rule;
    RuleShape(k);
    assert RuleAt(text, k);
    assert text[22 * k..22 * k + 21][j] == text[22 * k + j];
  }

  function Places(n: nat): seq<Stretch> {
    if n == 0 then [] else Places(n - 1) + [Stretch(22 * (n - 1), 22 * (n - 1) + 21)]
  }

  function RuleList(n: nat): seq<string> {
    if n == 0 then [] else RuleList(n - 1) + [Rule(n - 1)]
  }

  lemma {:induction false} PlacesAre(n: nat)
    ensures |Places(n)| == |RuleList(n)| == n
    ensures forall i | 0 <= i < n :: Places(n)[i] == Stretch(22 * i, 22 * i + 21) && RuleList(n)[i] == Rule(i)
  {
    if n > 0 {
      hide Rule;
      PlacesAre(n - 1);
    }
  }

  lemma PlaceIsSentence(text: string, i: nat)
    requires IsRuleText(text) && i < 27
    ensures var s := Stretch(22 * i, 22 * i + 21);
      && TrimmedStretch(text, s) && Whole(text, s) && text[s.lo..s.hi] == Rule(i)
      && (i < 26 ==> Stops(text, s))
  {
    hide Rule;
    RuleShape(i);
    assert RuleAt(text, i);
    var lo := 22 * i;
    forall k | lo <= k < lo + 20
      ensures !EndsAt(text, k)
    {
      RuleChar(text, i, k - lo);
    }
    RuleChar(text, i, 0);
    RuleChar(text, i, 20);
  }

  lemma EveryCharHasPlace(text: string, ss: seq<Stretch>, k: nat)
    requires IsRuleText(text) && k < |text| && !IsSpace(text[k])
    requires |ss| == 27 && forall i | 0 <= i < 27 :: ss[i] == Stretch(22 * i, 22 * i + 21)
    ensures Covered(ss, k)
  {
    var i := k / 22;
    assert RuleAt(text, i);
    assert ss[i] in ss;
  }

  /** The sentences of the text are the 27 rules. */
  lemma TextHasRules(text: string, out: seq<string>, ss: seq<Stretch>, n: nat)
    requires IsRuleText(text) && n == 27 && out == RuleList(n) && ss == Places(n)
    ensures AreSentences(text, out) && |out| == 27 && forall i | 0 <= i < 27 :: out[i] == Rule(i)
  {
    hide Rule, IsRuleText, TrimmedStretch, Whole, RuleList, Places, Stops;
    PlacesAre(n);
    TextLength(text);
    forall i | 0 <= i < 27
      ensures TrimmedStretch(text, ss[i]) && Whole(text, ss[i]) && out[i] == text[ss[i].lo..ss[i].hi]
      ensures i < 26 ==> Stops(text, ss[i])
    {
      PlaceIsSentence(text, i);
    }
    forall k | 0 <= k < |text| && !IsSpace(text[k])
      ensures Covered(ss, k)
    {
      EveryCharHasPlace(text, ss, k);
    }
    assert Cuts(text, out, ss);
  }

  lemma TextLength(text: string)
    requires IsRuleText(text)
    ensures |text| == 593
  {
  }

  lemma TextIsTrimmed(text: string)
    requires IsRuleText(text)
    ensures Trim(text) == text && text != ""
  {
    hide Rule;
    RuleShape(0);
    RuleShape(26);
    RuleChar(text, 0, 0);
    RuleChar(text, 26, 20);
    TrimSolid(text);
  }

  lemma RuleText(text: string, i: nat)
    requires IsRuleText(text) && i < 27
    ensures Trim(Rule(i)) == Rule(i) && Collapse(Rule(i)) == Rule(i) && Contains(text, Rule(i)) && |Rule(i)| == 21
  {
    RuleWords(i);
    hide Rule, Collapse;
    RuleShape(i);
    TrimSolid(Rule(i));
    assert RuleAt(text, i);
    assert At(text, Rule(i), 22 * i);
  }

  lemma FourWords(a: string, b: string, c: string, d: string)
    requires IsWord(a) && IsWord(b) && IsWord(c) && IsWord(d)
    ensures var s := a + " " + (b + " " + (c + " " + d)); Collapse(s) == s
  {
    var ws := [a, b, c, d];
    assert ws[1..] == [b, c, d] && [b, c, d][1..] == [c, d] && [c, d][1..] == [d];
    assert JoinWords([d]) == d && JoinWords([c, d]) == c + " " + d;
    assert JoinWords([b, c, d]) == b + " " + (c + " " + d);
    WordsOfJoin(ws);
  }

  lemma RuleWords(i: nat)
    requires i < 27
    ensures Collapse(Rule(i)) == Rule(i)
  {
    hide Collapse, Letter;
    var last := [Letter(i)] + ".";
    LetterIsWord(i);
    FourWords("keep", "the", "signature", last);
    LeftToRight("keep", "the", "signature", last);
    assert HEAD == "keep" + " " + "the" + " " + "signature" + " ";
  }

  lemma LeftToRight(a: string, b: string, c: string, d: string)
    ensures a + " " + (b + " " + (c + " " + d)) == a + " " + b + " " + c + " " + d
  {
  }

  lemma LetterIsWord(i: nat)
    ensures IsWord([Letter(i)] + ".")
  {
  }
}

/** Token budgets over UTF-8 bytes: spending, and shortening a text to an allowance. */
module Budget {
  import opened Text
  import opened Claims

  const BYTES_PER_TOKEN: nat := 3
  const ELLIPSIS: char := '\U{2026}'
  const ELLIPSIS_BYTES: nat := 3
  const USIZE_MAX: nat := 0xFFFF_FFFF_FFFF_FFFF

  // ---------- UTF-8, section 3 of RFC 3629 ----------

  /** The bytes of one character. */
  function EncodeChar(c: char): (bs: seq<nat>)
    ensures |bs| == CharBytes(c) && forall b | b in bs :: b < 0x100
  {
    var n := c as int;
    if n < 0x80 then [n]
    else if n < 0x800 then [0xC0 + n / 0x40, 0x80 + n % 0x40]
    else if n < 0x1_0000 then [0xE0 + n / 0x1000, 0x80 + n / 0x40 % 0x40, 0x80 + n % 0x40]
    else [0xF0 + n / 0x4_0000, 0x80 + n / 0x1000 % 0x40, 0x80 + n / 0x40 % 0x40, 0x80 + n % 0x40]
  }

  function Encode(s: string): (bs: seq<nat>)
    ensures |bs| == ByteLength(s)
  {
    if s == "" then [] else Encode(s[..|s| - 1]) + EncodeChar(s[|s| - 1])
  }

  predicate IsContinuation(b: nat) {
    0x80 <= b < 0xC0
  }

  /** `is_char_boundary`: the end, or a byte that continues nothing. */
  predicate IsBoundary(bs: seq<nat>, i: nat) {
    i == |bs| || (i < |bs| && !IsContinuation(bs[i]))
  }

  lemma CharShape(c: char)
    ensures !IsContinuation(EncodeChar(c)[0])
    ensures forall i | 1 <= i < CharBytes(c) :: IsContinuation(EncodeChar(c)[i])
  {
  }

  /** How many whole characters end at or before byte `i`. */
  function CharsBefore(s: string, i: nat): (k: nat)
    ensures k <= |s| && ByteLength(s[..k]) <= i
    ensures k < |s| ==> i < ByteLength(s[..k + 1])
  {
    if s == "" then 0
    else if ByteLength(s) <= i then
      assert s[..|s|] == s;
      |s|
    else
      var k := CharsBefore(s[..|s| - 1], i);
      assert s[..|s| - 1][..k] == s[..k];
      if k < |s| - 1 then
        assert s[..|s| - 1][..k + 1] == s[..k + 1];
        k
      else
        assert s[..k + 1] == s;
        k
  }

  lemma {:induction false} EncodePrefix(s: string, k: nat)
    requires k <= |s|
    ensures Encode(s[..k]) <= Encode(s)
  {
    if k < |s| {
      EncodePrefix(s[..|s| - 1], k);
      assert s[..|s| - 1][..k] == s[..k];
    } else {
      assert s[..k] == s;
    }
  }

  /** Byte boundaries are the ends of whole characters. */
  lemma BoundaryIsCharEnd(s: string, i: nat)
    requires i <= ByteLength(s)
    ensures IsBoundary(Encode(s), i) <==> ByteLength(s[..CharsBefore(s, i)]) == i
  {
    var k, bs := CharsBefore(s, i), Encode(s);
    if k == |s| {
      assert s[..k] == s;
    } else {
      EncodePrefix(s, k + 1);
      assert s[..k + 1][..k] == s[..k];
      var at := i - ByteLength(s[..k]);
      assert bs[i] == Encode(s[..k + 1])[i] == EncodeChar(s[k])[at];
      CharShape(s[k]);
    }
  }

  // ---------- spending ----------

  function EstimateTokens(text: string): nat {
    (ByteLength(text) + BYTES_PER_TOKEN - 1) / BYTES_PER_TOKEN
  }

  class TokenBudget {
    var remaining: nat
    var spent: nat
    var exhausted: bool

    constructor (total: nat)
      ensures remaining == total && spent == 0 && !exhausted
    {
      remaining, spent, exhausted := total, 0, false;
    }

    /** Spend what fits; a text that does not fit changes only the mark. */
    method TrySpend(text: string) returns (ok: bool)
      modifies this
      ensures ok <==> EstimateTokens(text) <= old(remaining)
      ensures remaining + spent == old(remaining + spent)
      ensures spent == old(spent) + if ok then EstimateTokens(text) else 0
      ensures exhausted == (old(exhausted) || !ok)
    {
      var cost := EstimateTokens(text);
      if cost > remaining {
        exhausted := true;
        return false;
      }
      remaining := remaining - cost;
      spent := spent + cost;
      return true;
    }
  }

  // ---------- shortening ----------

  function MaxBytes(tokens: nat): nat {
    if tokens * BYTES_PER_TOKEN > USIZE_MAX then USIZE_MAX else tokens * BYTES_PER_TOKEN
  }

  /** The last whitespace character, if any. */
  function LastSpace(s: string): (r: Option<nat>)
    ensures r.Some? ==> r.value < |s| && IsSpace(s[r.value]) && forall i | r.value < i < |s| :: !IsSpace(s[i])
    ensures r.None? ==> NoSpace(s)
  {
    if s == "" then None
    else if IsSpace(s[|s| - 1]) then Some(|s| - 1)
    else LastSpace(s[..|s| - 1])
  }

  /** The longest run of whole characters in `room` bytes. */
  predicate LongestFit(text: string, room: nat, k: nat) {
    k <= |text| && ByteLength(text[..k]) <= room && (k < |text| ==> room < ByteLength(text[..k + 1]))
  }

  /** Where to cut: at the last whitespace, unless that would throw away most of what fits. */
  predicate CutsWell(text: string, k: nat, cut: nat)
    requires k <= |text|
  {
    var last := LastSpace(text[..k]);
    if last.Some? && ByteLength(text[..last.value]) * 2 >= ByteLength(text[..k]) then cut == last.value else cut == k
  }

  /** The cut is after all of `k` characters, or before a whitespace after which there is none;
      it is there exactly if that keeps at least half of the bytes. */
  lemma CutKeepsHalf(text: string, k: nat, cut: nat)
    requires k <= |text| && cut <= k && CutsWell(text, k, cut)
    ensures 2 * ByteLength(text[..cut]) >= ByteLength(text[..k])
    ensures cut < k ==> IsSpace(text[cut]) && forall i | cut < i < k :: !IsSpace(text[i])
    ensures cut == k ==> forall i | 0 <= i < k && IsSpace(text[i]) && (forall j | i < j < k :: !IsSpace(text[j])) ::
      2 * ByteLength(text[..i]) < ByteLength(text[..k])
  {
    hide ByteLength;
    assert forall i | 0 <= i < k :: text[..k][i] == text[i];
    var last := LastSpace(text[..k]);
    forall i | 0 <= i < k && IsSpace(text[i]) && (forall j | i < j < k :: !IsSpace(text[j]))
      ensures last == Some(i)
    {
    }
  }

  /** `r` is a prefix of the text, cut at `cut`, and the ellipsis. */
  predicate ShortenedAt(text: string, room: nat, r: string, k: nat, cut: nat) {
    && LongestFit(text, room, k) && cut <= k && CutsWell(text, k, cut)
    && r == TrimEnd(text[..cut]) + [ELLIPSIS] && TrimEnd(text[..cut]) <= text
  }

  ghost predicate ShortenedTo(text: string, room: nat, r: string) {
    exists k: nat, cut: nat :: ShortenedAt(text, room, r, k, cut)
  }

  lemma {:induction false} PrefixBytes(s: string, k: nat)
    requires k <= |s|
    ensures ByteLength(s[..k]) <= ByteLength(s)
  {
    EncodePrefix(s, k);
  }

  lemma TrimEndBytes(s: string)
    ensures ByteLength(TrimEnd(s)) <= ByteLength(s)
  {
    TrimEndFacts(s);
    PrefixBytes(s, |TrimEnd(s)|);
  }

  lemma Shortened(text: string, k: nat, cut: nat, room: nat)
    requires LongestFit(text, room, k) && cut <= k
    ensures var r := TrimEnd(text[..cut]) + [ELLIPSIS];
      ByteLength(r) <= room + ELLIPSIS_BYTES && TrimEnd(text[..cut]) <= text
  {
    var kept := TrimEnd(text[..cut]);
    TrimEndFacts(text[..cut]);
    TrimEndBytes(text[..cut]);
    assert text[..k][..cut] == text[..cut];
    PrefixBytes(text[..k], cut);
    assert (kept + [ELLIPSIS])[..|kept|] == kept;
  }

  /** Shorten a text to its allowance. The result always fits. It is the text itself when that
      fits, nothing when not even the ellipsis does, and otherwise a prefix of whole characters
      and the ellipsis, cut from the longest prefix that leaves room for it. */
  method FitToTokens(text: string, tokens: nat) returns (r: string)
    ensures ByteLength(r) <= MaxBytes(tokens)
    ensures ByteLength(text) <= MaxBytes(tokens) ==> r == text
    ensures ByteLength(text) > MaxBytes(tokens) && MaxBytes(tokens) < ELLIPSIS_BYTES ==> r == ""
    ensures ByteLength(text) > MaxBytes(tokens) && MaxBytes(tokens) >= ELLIPSIS_BYTES ==>
      ShortenedTo(text, MaxBytes(tokens) - ELLIPSIS_BYTES, r)
  {
    var maxBytes := MaxBytes(tokens);
    var bytes := Encode(text);
    if |bytes| <= maxBytes { return text; }
    if maxBytes < ELLIPSIS_BYTES { return ""; }
    var room := maxBytes - ELLIPSIS_BYTES;
    var end := StepBack(text, bytes, room);
    var k := CharsBefore(text, end);
    var cut := WordCut(text, k);
    Shortened(text, k, cut, room);
    r := TrimEnd(text[..cut]) + [ELLIPSIS];
    assert ShortenedAt(text, room, r, k, cut);
  }

  /** Prefer a word boundary, but not when it would throw away most of what fits. */
  method WordCut(text: string, k: nat) returns (cut: nat)
    requires k <= |text|
    ensures cut <= k && CutsWell(text, k, cut)
  {
    var last := LastSpace(text[..k]);
    if last.Some? && ByteLength(text[..last.value]) * 2 >= ByteLength(text[..k]) {
      return last.value;
    }
    return k;
  }

  /** Step back from a byte offset to a character boundary. */
  method StepBack(text: string, bytes: seq<nat>, room: nat) returns (end: nat)
    requires bytes == Encode(text) && room <= |bytes|
    ensures end <= room && ByteLength(text[..CharsBefore(text, end)]) == end && LongestFit(text, room, CharsBefore(text, end))
  {
    var k := CharsBefore(text, room);
    end := room;
    while end > 0 && !IsBoundary(bytes, end)
      invariant ByteLength(text[..k]) <= end <= room
    {
      BoundaryIsCharEnd(text, end);
      SameChars(text, room, end);
      end := end - 1;
    }
    SameChars(text, room, end);
    BoundaryIsCharEnd(text, end);
  }

  /** Offsets between the ends of two neighbouring characters lie after the same characters. */
  lemma SameChars(text: string, room: nat, end: nat)
    requires ByteLength(text[..CharsBefore(text, room)]) <= end <= room
    ensures CharsBefore(text, end) == CharsBefore(text, room)
  {
    var k, j := CharsBefore(text, room), CharsBefore(text, end);
    if j < k {
      assert text[..k][..j + 1] == text[..j + 1];
      PrefixBytes(text[..k], j + 1);
    } else if k < j {
      assert text[..j][..k + 1] == text[..k + 1];
      PrefixBytes(text[..j], k + 1);
    }
  }

  /** A token stands for three bytes, the last one for what is left. */
  lemma TokensAre(text: string, n: nat)
    ensures EstimateTokens(text) <= n <==> ByteLength(text) <= 3 * n
  {
  }

  /** In tokens: what a shortened text costs is within its allowance, and every text within an
      allowance that a machine word can hold fits. */
  lemma FitsItsAllowance(r: string, tokens: nat)
    ensures ByteLength(r) <= MaxBytes(tokens) ==> EstimateTokens(r) <= tokens
    ensures EstimateTokens(r) <= tokens && 3 * tokens < 0x1_0000_0000_0000_0000 ==> ByteLength(r) <= MaxBytes(tokens)
  {
  }
}

/**
 * Normalisation of an inbound message (robot.py:160-165): every mention token
 * `<@digits>` or `<@!digits>` is deleted, the text is stripped, and a single leading
 * `/` is dropped before stripping once more.
 */
module Normalization {
  import opened Wrappers
  import opened Text

  /** A whole mention token, as the pattern `<@!?\d+>` matches it. */
  predicate IsMention(t: string) {
    |t| >= 4 && t[0] == '<' && t[1] == '@' && t[|t| - 1] == '>' &&
    var body := t[2..|t| - 1];
    AllDigits(body) || (body[0] == '!' && |body| >= 2 && AllDigits(body[1..]))
  }

  /** No mention token starts at the front of `s`. */
  predicate NoMentionAtStart(s: string) {
    forall n :: 0 <= n <= |s| ==> !IsMention(s[..n])
  }

  /** The number of ASCII digits at the front of `s`. */
  function DigitRun(s: string): (d: nat)
    ensures d <= |s| && AllDigits(s[..d])
    ensures d == |s| || !IsDigit(s[d])
    decreases |s|
  {
    if |s| > 0 && IsDigit(s[0]) then 1 + DigitRun(s[1..]) else 0
  }

  /** The length of the mention token at the front of `s`, if there is one. */
  function MentionLength(s: string): (r: Option<nat>)
    ensures r.Some? ==> r.value <= |s| && IsMention(s[..r.value])
    ensures r.None? ==> NoMentionAtStart(s)
  {
    if |s| >= 2 && s[0] == '<' && s[1] == '@' then
      var k := if |s| > 2 && s[2] == '!' then 3 else 2;
      var d := DigitRun(s[k..]);
      if d > 0 && k + d < |s| && s[k + d] == '>' then
        MentionShape(s, k, d);
        Some(k + d + 1)
      else
        NoMentionShape(s, k, d);
        None
    else
      None
  }

  lemma MentionShape(s: string, k: nat, d: nat)
    requires |s| >= 2 && s[0] == '<' && s[1] == '@'
    requires k == (if |s| > 2 && s[2] == '!' then 3 else 2)
    requires 0 < d && k + d < |s| && AllDigits(s[k..][..d]) && s[k + d] == '>'
    ensures IsMention(s[..k + d + 1])
  {
    var t := s[..k + d + 1];
    assert t[2..|t| - 1] == s[2..k + d];
    assert s[k..][..d] == s[k..k + d];
    if k == 3 {
      assert s[2..k + d][1..] == s[3..k + d];
    }
  }

  lemma NoMentionShape(s: string, k: nat, d: nat)
    requires |s| >= 2 && s[0] == '<' && s[1] == '@'
    requires k == (if |s| > 2 && s[2] == '!' then 3 else 2)
    requires d == DigitRun(s[k..])
    requires !(d > 0 && k + d < |s| && s[k + d] == '>')
    ensures NoMentionAtStart(s)
  {
    forall n | 0 <= n <= |s| && IsMention(s[..n])
      ensures false
    {
      var body := s[..n][2..n - 1];
      assert forall x :: k <= x < n - 1 ==> s[x] == (if k == 2 then body[x - 2] else body[1..][x - 3]);
    }
  }

  /** Mention tokens are unambiguous: the one at the front of `s` is the one `MentionLength` finds. */
  lemma MentionLengthComplete(s: string, n: nat)
    requires n <= |s| && IsMention(s[..n])
    ensures MentionLength(s) == Some(n)
  {
  }

  /** Python's `re.sub(r'<@!?\d+>', '', s)` with `\d` read as an ASCII digit. */
  function RemoveMentions(s: string): (r: string)
    ensures |r| <= |s|
    ensures forall k :: 0 <= k < |r| ==> r[k] in s
    decreases |s|
  {
    if s == [] then []
    else match MentionLength(s)
      case Some(n) =>
        assert forall x :: x in s[n..] ==> x in s;
        RemoveMentions(s[n..])
      case None =>
        assert forall x :: x in s[1..] ==> x in s;
        [s[0]] + RemoveMentions(s[1..])
  }

  /**
   * The reference meaning of a left-to-right, non-overlapping substitution: the input is
   * cut into pieces; a token is dropped wherever a mention starts, and otherwise a single
   * character is kept and the scan moves on by one.
   */
  datatype Piece = Keep(c: char) | Drop(token: string)

  predicate IsScanOf(pieces: seq<Piece>, s: string)
    decreases |pieces|
  {
    if pieces == [] then s == []
    else match pieces[0]
      case Drop(t) => IsMention(t) && StartsWith(s, t) && IsScanOf(pieces[1..], s[|t|..])
      case Keep(c) => s != [] && s[0] == c && NoMentionAtStart(s) && IsScanOf(pieces[1..], s[1..])
  }

  /** The characters a scan keeps, in order. */
  function KeptText(pieces: seq<Piece>): string {
    if pieces == [] then []
    else match pieces[0]
      case Drop(_) => KeptText(pieces[1..])
      case Keep(c) => [c] + KeptText(pieces[1..])
  }

  /** Every text has a scan. */
  function ScanOf(s: string): (pieces: seq<Piece>)
    ensures IsScanOf(pieces, s)
    decreases |s|
  {
    if s == [] then []
    else match MentionLength(s)
      case Some(n) => [Drop(s[..n])] + ScanOf(s[n..])
      case None => [Keep(s[0])] + ScanOf(s[1..])
  }

  /** `RemoveMentions` keeps exactly the characters that any scan of the input keeps. */
  lemma {:induction false} RemoveMentionsMatchesScan(s: string, pieces: seq<Piece>)
    requires IsScanOf(pieces, s)
    ensures RemoveMentions(s) == KeptText(pieces)
    decreases |pieces|
  {
    if pieces != [] {
      match pieces[0]
      case Drop(t) =>
        assert s[..|t|] == t;
        MentionLengthComplete(s, |t|);
        RemoveMentionsMatchesScan(s[|t|..], pieces[1..]);
      case Keep(c) =>
        RemoveMentionsMatchesScan(s[1..], pieces[1..]);
    }
  }

  /** A message that opens with a mention token loses exactly that token. */
  lemma LeadingMentionRemoved(t: string, rest: string)
    requires IsMention(t)
    ensures RemoveMentions(t + rest) == RemoveMentions(rest)
  {
    var s := t + rest;
    assert s[..|t|] == t && s[|t|..] == rest;
    MentionLengthComplete(s, |t|);
  }

  /** Text without a `<` has no mention in it and passes through unchanged. */
  lemma {:induction false} NoAngleBracketUnchanged(s: string)
    requires '<' !in s
    ensures RemoveMentions(s) == s
    decreases |s|
  {
    if s != [] {
      assert s[..0] == [];
      assert MentionLength(s).None?;
      assert forall c :: c in s[1..] ==> c in s;
      NoAngleBracketUnchanged(s[1..]);
    }
  }

  /** The full normalisation of robot.py:160-165. */
  function Normalize(raw: string): (r: string)
    ensures Trimmed(r)
    ensures |r| <= |raw|
  {
    var content := Strip(RemoveMentions(raw));
    if StartsWith(content, "/") then Strip(content[1..]) else content
  }

  /**
   * What normalisation does, in terms of the reference scan: the mention-free text
   * `kept` is stripped, and when that starts with `/`, exactly one character is dropped
   * and the rest stripped again.
   */
  lemma NormalizeMeaning(raw: string, pieces: seq<Piece>)
    requires IsScanOf(pieces, raw)
    ensures var stripped := Strip(KeptText(pieces));
      Normalize(raw) == if StartsWith(stripped, "/") then Strip(stripped[1..]) else stripped
  {
    RemoveMentionsMatchesScan(raw, pieces);
  }

  /**
   * Normalisation is idempotent on the texts it produces, as long as they hold no `<`
   * and do not start with `/`.
   */
  lemma NormalizeStable(raw: string)
    requires '<' !in Normalize(raw) && !StartsWith(Normalize(raw), "/")
    ensures Normalize(Normalize(raw)) == Normalize(raw)
  {
    var n := Normalize(raw);
    NoAngleBracketUnchanged(n);
    StripTrimmed(n);
  }

  /**
   * Only one `/` is removed, so normalising twice can differ from normalising once:
   * `"//x"` becomes `"/x"`, which becomes `"x"`.
   */
  lemma OneSlashRemoved(x: string)
    requires x != [] && Trimmed(x) && '<' !in x
    ensures Normalize("/" + x) == x
    ensures Normalize("//" + x) == "/" + x
  {
    var once := "/" + x;
    var twice := "/" + once;
    assert "//" + x == twice;
    assert once[1..] == x && twice[1..] == once;
    assert once[0] == '/' && once[|once| - 1] == x[|x| - 1];
    assert twice[0] == '/' && twice[|twice| - 1] == x[|x| - 1];
    NormalizePlain(once);
    NormalizePlain(twice);
    StripTrimmed(x);
    StripTrimmed(once);
  }

  /** Text free of `<` and of surrounding whitespace only loses a leading `/`. */
  lemma NormalizePlain(t: string)
    requires '<' !in t && Trimmed(t)
    ensures Normalize(t) == if StartsWith(t, "/") then Strip(t[1..]) else t
  {
    NoAngleBracketUnchanged(t);
    StripTrimmed(t);
  }

  /**
   * Deleting an inner mention can splice a new one together, so normalising twice can
   * differ from normalising once: `"<@<@1>2>"` becomes `"<@2>"`, which becomes empty.
   */
  lemma SplicedMention(m: string, d: string)
    requires IsMention(m) && d != [] && AllDigits(d)
    ensures Normalize("<@" + m + d + ">") == "<@" + d + ">"
    ensures Normalize("<@" + d + ">") == ""
  {
    var spliced := "<@" + d + ">";
    var whole := "<@" + m + d + ">";
    SplicedShape(m, d, whole, spliced);
    RemoveInnerMention(whole, m, spliced[2..]);
    assert whole[..2] + spliced[2..] == spliced;
    NormalizeClean(whole);
    NormalizeMentionOnly(spliced);
  }

  lemma SplicedShape(m: string, d: string, whole: string, spliced: string)
    requires IsMention(m) && d != [] && AllDigits(d)
    requires spliced == "<@" + d + ">" && whole == "<@" + m + d + ">"
    ensures IsMention(spliced) && Trimmed(spliced) && !StartsWith(spliced, "/")
    ensures |whole| > 2 && whole[2..] == m + spliced[2..] && whole[..2] == spliced[..2]
    ensures '<' !in spliced[2..]
  {
    assert spliced[2..|spliced| - 1] == d;
    assert spliced[2..] == d + ">";
    assert whole[2..] == m + (d + ">");
    forall x | 0 <= x < |d| ensures d[x] != '<' { assert IsDigit(d[x]); }
  }

  /** Inside `<@`, a mention that starts right away is deleted and the opening marker kept. */
  lemma RemoveInnerMention(whole: string, m: string, tail: string)
    requires IsMention(m) && '<' !in tail
    requires |whole| > 2 && whole[0] == '<' && whole[1] == '@' && whole[2..] == m + tail
    ensures RemoveMentions(whole) == whole[..2] + tail
  {
    OpeningMarkerKept(whole);
    LeadingMentionRemoved(m, tail);
    NoAngleBracketUnchanged(tail);
  }

  /** Text whose mention-free form is already trimmed and does not start with `/` normalises to that form. */
  lemma NormalizeClean(s: string)
    requires Trimmed(RemoveMentions(s)) && !StartsWith(RemoveMentions(s), "/")
    ensures Normalize(s) == RemoveMentions(s)
  {
    StripTrimmed(RemoveMentions(s));
  }

  /** `<@` followed by another `<` opens no mention, so both characters are kept. */
  lemma OpeningMarkerKept(s: string)
    requires |s| > 2 && s[0] == '<' && s[1] == '@' && s[2] == '<'
    ensures RemoveMentions(s) == s[..2] + RemoveMentions(s[2..])
  {
    var t := s[1..];
    assert t[0] == '@' && t[1..] == s[2..];
    KeepsUnmarked(s);
    KeepsUnmarked(t);
    var rest := RemoveMentions(s[2..]);
    assert RemoveMentions(s) == [s[0]] + ([t[0]] + rest);
    assert [s[0]] + ([t[0]] + rest) == s[..2] + rest;
  }

  /** A character that cannot open a mention is kept. */
  lemma KeepsUnmarked(s: string)
    requires s != [] && (s[0] != '<' || (|s| > 2 && s[2] == '<'))
    ensures RemoveMentions(s) == [s[0]] + RemoveMentions(s[1..])
  {
    assert |s| > 2 && s[0] == '<' ==> DigitRun(s[2..]) == 0;
  }

  /** A message that is nothing but one mention normalises to empty text. */
  lemma NormalizeMentionOnly(t: string)
    requires IsMention(t)
    ensures Normalize(t) == ""
  {
    LeadingMentionRemoved(t, "");
    assert t + "" == t;
  }
}

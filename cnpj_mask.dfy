/**
 * The CNPJ input mask (`formatCnpj`), identical in both variants of the form.
 *
 * The source writes it as a chain of regular-expression replacements: strip
 * every non-digit, insert `.` `.` `/` `-` with four non-global replacements, and
 * cut everything after the second digit that follows the hyphen.  FormatCnpj
 * below follows that chain step by step, with Leftmost standing for the regex
 * engine's leftmost match.  Grouped is the positional rule the chain is meant to
 * implement, and FormatCnpjIsGrouping proves the two equal for every input.
 */
module CnpjMask {
  import opened Wrappers

  /** `\d` without the `u` flag: an ASCII decimal digit. */
  predicate IsDigit(c: char) {
    '0' <= c <= '9'
  }

  predicate AllDigits(s: string) {
    forall i :: 0 <= i < |s| ==> IsDigit(s[i])
  }

  /** `s.replace(/\D/g, '')`: the digits of s, in their order. */
  function StripNonDigits(s: string): (r: string)
    ensures AllDigits(r)
    ensures |r| <= |s|
  {
    if s == [] then []
    else if IsDigit(s[0]) then [s[0]] + StripNonDigits(s[1..])
    else StripNonDigits(s[1..])
  }

  lemma {:induction false} StripConcat(a: string, b: string)
    ensures StripNonDigits(a + b) == StripNonDigits(a) + StripNonDigits(b)
  {
    if a == [] {
      assert a + b == b;
    } else {
      assert (a + b)[0] == a[0];
      assert (a + b)[1..] == a[1..] + b;
      StripConcat(a[1..], b);
    }
  }

  /** Stripping leaves a string unchanged exactly when it is made of digits only. */
  lemma {:induction false} StripIdentity(s: string)
    ensures StripNonDigits(s) == s <==> AllDigits(s)
  {
    if s != [] && AllDigits(s) {
      assert AllDigits(s[1..]) by {
        forall i | 0 <= i < |s[1..]| ensures IsDigit(s[1..][i]) {
          assert s[1..][i] == s[i + 1];
        }
      }
      StripIdentity(s[1..]);
      assert s == [s[0]] + s[1..];
    }
  }

  lemma StripSeparator(c: char)
    requires !IsDigit(c)
    ensures StripNonDigits([c]) == []
  {
  }

  // ---------------------------------------------------------------------------
  // The regular-expression chain, as written
  // ---------------------------------------------------------------------------

  /**
   * The patterns of the mask's non-global replacements: `\d` repeated n times
   * (the `(\d{k})(\d)` patterns, n = k + 1), and `(-\d{2})\d+?$`.
   */
  datatype Pattern = DigitRun(n: nat) | HyphenTail

  /**
   * Whether p matches s starting at position i.  The lazy `\d+?` before `$`
   * still has to reach the end of the input, so HyphenTail needs `-`, two
   * digits, and at least one more digit, with only digits up to the end.
   */
  predicate MatchesAt(s: string, i: nat, p: Pattern) {
    match p
    case DigitRun(n) => i + n <= |s| && forall j :: i <= j < i + n ==> IsDigit(s[j])
    case HyphenTail => i + 3 < |s| && s[i] == '-' && forall j :: i < j < |s| ==> IsDigit(s[j])
  }

  /** The leftmost start at or after `from` where p matches: where a non-global `replace` rewrites. */
  function Leftmost(s: string, p: Pattern, from: nat): (r: Option<nat>)
    decreases |s| + 1 - from
    ensures r.Some? ==> from <= r.value && MatchesAt(s, r.value, p)
    ensures r.Some? ==> forall j :: from <= j < r.value ==> !MatchesAt(s, j, p)
    ensures r.None? ==> forall j :: from <= j ==> !MatchesAt(s, j, p)
  {
    if from > |s| then None
    else if MatchesAt(s, from, p) then Some(from)
    else Leftmost(s, p, from + 1)
  }

  /** `s.replace(/(\d{k})(\d)/, '$1' + sep + '$2')`: sep after the first k digits of the leftmost run of k + 1. */
  function InsertAfterRun(s: string, k: nat, sep: char): string {
    match Leftmost(s, DigitRun(k + 1), 0)
    case None => s
    case Some(i) => s[..i + k] + [sep] + s[i + k..]
  }

  /** `s.replace(/(-\d{2})\d+?$/, '$1')`: keeps `-` and two digits of the leftmost all-digit tail. */
  function TrimAfterHyphen(s: string): string {
    match Leftmost(s, HyphenTail, 0)
    case None => s
    case Some(i) => s[..i + 3]
  }

  /** formatCnpj: the mask applied to the text field on every change. */
  function FormatCnpj(value: string): string {
    var digits := StripNonDigits(value);
    var dotted := InsertAfterRun(digits, 2, '.');
    var dotted2 := InsertAfterRun(dotted, 3, '.');
    var slashed := InsertAfterRun(dotted2, 3, '/');
    var hyphened := InsertAfterRun(slashed, 4, '-');
    TrimAfterHyphen(hyphened)
  }

  // ---------------------------------------------------------------------------
  // The positional rule
  // ---------------------------------------------------------------------------

  /** The number of digits of a CNPJ. */
  const CnpjDigits := 14

  /** The characters of the masked display, `NN.NNN.NNN/NNNN-NN` (the input's maxLength). */
  const MaskedLength := 18

  /** The first 14 digits, or all of them when there are fewer. */
  function Take14(d: string): string {
    if |d| <= CnpjDigits then d else d[..CnpjDigits]
  }

  /**
   * The grouping NN.NNN.NNN/NNNN-NN restricted to its first m separators, each
   * written only when a digit follows it: `.` before digit 2, `.` before digit
   * 5, `/` before digit 8, `-` before digit 12 (digits counted from 0).
   */
  function GroupedUpTo(t: string, m: nat): string {
    if m >= 4 && |t| >= 13 then t[..2] + "." + t[2..5] + "." + t[5..8] + "/" + t[8..12] + "-" + t[12..]
    else if m >= 3 && |t| >= 9 then t[..2] + "." + t[2..5] + "." + t[5..8] + "/" + t[8..]
    else if m >= 2 && |t| >= 6 then t[..2] + "." + t[2..5] + "." + t[5..]
    else if m >= 1 && |t| >= 3 then t[..2] + "." + t[2..]
    else t
  }

  /** The masked display of a digit string. */
  function Grouped(t: string): string {
    GroupedUpTo(t, 4)
  }

  /** The separator a masked CNPJ carries at position p, if p is a separator position. */
  function SeparatorAt(p: nat): Option<char> {
    if p == 2 || p == 6 then Some('.')
    else if p == 10 then Some('/')
    else if p == 15 then Some('-')
    else None
  }

  /** How many separators n digits receive. */
  function SeparatorCount(n: nat): nat {
    (if n >= 3 then 1 else 0) + (if n >= 6 then 1 else 0) + (if n >= 9 then 1 else 0) + (if n >= 13 then 1 else 0)
  }

  // ---------------------------------------------------------------------------
  // The chain computes the positional rule
  // ---------------------------------------------------------------------------

  lemma LeftmostAt(s: string, p: Pattern, i: nat)
    requires MatchesAt(s, i, p)
    requires forall j :: 0 <= j < i ==> !MatchesAt(s, j, p)
    ensures Leftmost(s, p, 0) == Some(i)
  {
  }

  lemma LeftmostNone(s: string, p: Pattern)
    requires forall j :: 0 <= j <= |s| ==> !MatchesAt(s, j, p)
    ensures Leftmost(s, p, 0) == None
  {
  }

  /** A window that covers a non-digit is not a run of digits. */
  lemma NonDigitBreaksRun(s: string, q: nat, j: nat, n: nat)
    requires q < |s| && !IsDigit(s[q]) && j <= q < j + n
    ensures !MatchesAt(s, j, DigitRun(n))
  {
  }

  lemma DigitsAt(s: string, x: string, d: string, i: nat, n: nat)
    requires s == x + d && |x| == i && AllDigits(d) && n <= |d|
    ensures MatchesAt(s, i, DigitRun(n))
  {
    forall j | i <= j < i + n ensures IsDigit(s[j]) {
      assert s[j] == d[j - i];
    }
  }

  lemma Step1(d: string)
    requires AllDigits(d)
    ensures InsertAfterRun(d, 2, '.') == GroupedUpTo(d, 1)
  {
    if |d| >= 3 {
      DigitsAt(d, [], d, 0, 3);
      LeftmostAt(d, DigitRun(3), 0);
    } else {
      LeftmostNone(d, DigitRun(3));
    }
  }

  lemma NoRunAfterStep1(d: string)
    requires |d| < 6
    ensures forall j :: !MatchesAt(GroupedUpTo(d, 1), j, DigitRun(4))
  {
    var s := GroupedUpTo(d, 1);
    forall j ensures !MatchesAt(s, j, DigitRun(4)) {
      if |d| >= 3 && j <= 2 {
        assert s[2] == '.';
        NonDigitBreaksRun(s, 2, j, 4);
      }
    }
  }

  lemma Step2(d: string)
    requires AllDigits(d)
    ensures InsertAfterRun(GroupedUpTo(d, 1), 3, '.') == GroupedUpTo(d, 2)
  {
    var s := GroupedUpTo(d, 1);
    if |d| >= 6 {
      var x := d[..2] + "." + d[2..5];
      assert d[2..] == d[2..5] + d[5..];
      assert s == x + d[5..];
      assert s[2] == '.';
      DigitsAt(s, d[..2] + ".", d[2..], 3, 4);
      forall j | 0 <= j < 3 ensures !MatchesAt(s, j, DigitRun(4)) {
        NonDigitBreaksRun(s, 2, j, 4);
      }
      LeftmostAt(s, DigitRun(4), 3);
      assert s[..6] == x && s[6..] == d[5..];
    } else {
      NoRunAfterStep1(d);
      LeftmostNone(s, DigitRun(4));
    }
  }

  lemma NoRunAfterStep2(d: string)
    requires |d| < 9
    ensures forall j :: !MatchesAt(GroupedUpTo(d, 2), j, DigitRun(4))
  {
    var s := GroupedUpTo(d, 2);
    if |d| < 6 {
      assert s == GroupedUpTo(d, 1);
      NoRunAfterStep1(d);
    } else {
      assert s[2] == '.' && s[6] == '.';
      forall j ensures !MatchesAt(s, j, DigitRun(4)) {
        if j <= 2 {
          NonDigitBreaksRun(s, 2, j, 4);
        } else if j <= 6 {
          NonDigitBreaksRun(s, 6, j, 4);
        }
      }
    }
  }

  lemma Step3(d: string)
    requires AllDigits(d)
    ensures InsertAfterRun(GroupedUpTo(d, 2), 3, '/') == GroupedUpTo(d, 3)
  {
    var s := GroupedUpTo(d, 2);
    if |d| >= 9 {
      var x := d[..2] + "." + d[2..5] + "." + d[5..8];
      assert d[5..] == d[5..8] + d[8..];
      assert s == x + d[8..];
      assert s[2] == '.' && s[6] == '.';
      DigitsAt(s, d[..2] + "." + d[2..5] + ".", d[5..], 7, 4);
      forall j | 0 <= j < 7 ensures !MatchesAt(s, j, DigitRun(4)) {
        if j <= 2 {
          NonDigitBreaksRun(s, 2, j, 4);
        } else {
          NonDigitBreaksRun(s, 6, j, 4);
        }
      }
      LeftmostAt(s, DigitRun(4), 7);
      assert s[..10] == x && s[10..] == d[8..];
    } else {
      NoRunAfterStep2(d);
      LeftmostNone(s, DigitRun(4));
    }
  }

  lemma NoRunAfterStep3(d: string)
    requires |d| < 13
    ensures forall j :: !MatchesAt(GroupedUpTo(d, 3), j, DigitRun(5))
  {
    var s := GroupedUpTo(d, 3);
    if |d| < 9 {
      assert s == GroupedUpTo(d, 2);
      NoRunAfterStep2(d);
      forall j ensures !MatchesAt(s, j, DigitRun(5)) {
        if MatchesAt(s, j, DigitRun(5)) {
          assert MatchesAt(s, j, DigitRun(4));
        }
      }
    } else {
      assert s[2] == '.' && s[6] == '.' && s[10] == '/';
      forall j ensures !MatchesAt(s, j, DigitRun(5)) {
        if j <= 2 {
          NonDigitBreaksRun(s, 2, j, 5);
        } else if j <= 6 {
          NonDigitBreaksRun(s, 6, j, 5);
        } else if j <= 10 {
          NonDigitBreaksRun(s, 10, j, 5);
        }
      }
    }
  }

  lemma Step4(d: string)
    requires AllDigits(d)
    ensures InsertAfterRun(GroupedUpTo(d, 3), 4, '-') == GroupedUpTo(d, 4)
  {
    var s := GroupedUpTo(d, 3);
    if |d| >= 13 {
      var x := d[..2] + "." + d[2..5] + "." + d[5..8] + "/" + d[8..12];
      assert d[8..] == d[8..12] + d[12..];
      assert s == x + d[12..];
      assert s[2] == '.' && s[6] == '.' && s[10] == '/';
      DigitsAt(s, d[..2] + "." + d[2..5] + "." + d[5..8] + "/", d[8..], 11, 5);
      forall j | 0 <= j < 11 ensures !MatchesAt(s, j, DigitRun(5)) {
        if j <= 2 {
          NonDigitBreaksRun(s, 2, j, 5);
        } else if j <= 6 {
          NonDigitBreaksRun(s, 6, j, 5);
        } else {
          NonDigitBreaksRun(s, 10, j, 5);
        }
      }
      LeftmostAt(s, DigitRun(5), 11);
      assert s[..15] == x && s[15..] == d[12..];
    } else {
      NoRunAfterStep3(d);
      LeftmostNone(s, DigitRun(5));
    }
  }

  predicate HyphenFree(s: string) {
    forall i :: 0 <= i < |s| ==> s[i] != '-'
  }

  /** Before the hyphen, the masked string holds only digits, dots and the slash. */
  lemma GroupedHyphenFree(d: string, m: nat)
    requires AllDigits(d) && (m <= 3 || |d| < 13)
    ensures HyphenFree(GroupedUpTo(d, m))
  {
    var s := GroupedUpTo(d, m);
    forall i | 0 <= i < |s| ensures s[i] != '-' {
      if i != 2 && i != 6 && i != 10 {
        GroupedDigitAt(d, m, i);
      }
    }
  }

  /** Away from the separator positions the grouped string holds a digit. */
  lemma GroupedDigitAt(d: string, m: nat, i: nat)
    requires AllDigits(d)
    requires i < |GroupedUpTo(d, m)| && i != 2 && i != 6 && i != 10
    requires i == 15 ==> m <= 3 || |d| < 13
    ensures IsDigit(GroupedUpTo(d, m)[i])
  {
    var s := GroupedUpTo(d, m);
    if m >= 4 && |d| >= 13 {
      var a := d[..2] + "." + d[2..5] + "." + d[5..8] + "/" + d[8..12];
      assert s == a + "-" + d[12..];
      if i < 15 {
        var d12 := d[..12];
        assert d12[..2] == d[..2] && d12[2..5] == d[2..5] && d12[5..8] == d[5..8] && d12[8..] == d[8..12];
        assert a == GroupedUpTo(d12, 3);
        assert s[i] == a[i];
        GroupedDigitAt(d12, 3, i);
      } else {
        assert s[i] == d[12..][i - 16];
      }
    } else if m >= 3 && |d| >= 9 {
      if i < 2 { assert s[i] == d[i]; }
      else if i < 6 { assert s[i] == d[i - 1]; }
      else if i < 10 { assert s[i] == d[i - 2]; }
      else { assert s[i] == d[i - 3]; }
    } else if m >= 2 && |d| >= 6 {
      if i < 2 { assert s[i] == d[i]; }
      else if i < 6 { assert s[i] == d[i - 1]; }
      else { assert s[i] == d[i - 2]; }
    } else if m >= 1 && |d| >= 3 {
      if i < 2 { assert s[i] == d[i]; }
      else { assert s[i] == d[i - 1]; }
    }
  }

  lemma Trim(d: string)
    requires AllDigits(d)
    ensures TrimAfterHyphen(GroupedUpTo(d, 4)) == GroupedUpTo(Take14(d), 4)
  {
    var s := GroupedUpTo(d, 4);
    if |d| >= 13 {
      var x := d[..2] + "." + d[2..5] + "." + d[5..8] + "/" + d[8..12];
      assert s == x + "-" + d[12..];
      assert x == GroupedUpTo(d[..12], 3);
      GroupedHyphenFree(d[..12], 3);
      assert forall i :: 0 <= i < 15 ==> s[i] == x[i];
      if |d| > 14 {
        assert s[15] == '-';
        assert forall j :: 15 < j < |s| ==> s[j] == d[j - 4];
        assert MatchesAt(s, 15, HyphenTail);
        LeftmostAt(s, HyphenTail, 15);
        var t := d[..14];
        assert t[..2] == d[..2] && t[2..5] == d[2..5] && t[5..8] == d[5..8] && t[8..12] == d[8..12];
        assert t[12..] == d[12..14];
        assert s[..18] == x + "-" + d[12..14];
      } else {
        forall j | 0 <= j <= |s| ensures !MatchesAt(s, j, HyphenTail) {
          if j < 15 {
            assert s[j] == x[j];
          }
        }
        LeftmostNone(s, HyphenTail);
      }
    } else {
      GroupedHyphenFree(d, 4);
      LeftmostNone(s, HyphenTail);
    }
  }

  /** The regex chain computes the positional grouping of the first 14 digits of its input. */
  lemma FormatCnpjIsGrouping(value: string)
    ensures FormatCnpj(value) == Grouped(Take14(StripNonDigits(value)))
  {
    var d := StripNonDigits(value);
    Step1(d);
    Step2(d);
    Step3(d);
    Step4(d);
    Trim(d);
  }

  // ---------------------------------------------------------------------------
  // Properties of the mask
  // ---------------------------------------------------------------------------

  /** Each inserting replacement keeps the digits of the string, in order. */
  lemma InsertKeepsDigits(s: string, k: nat, sep: char)
    requires !IsDigit(sep)
    ensures StripNonDigits(InsertAfterRun(s, k, sep)) == StripNonDigits(s)
  {
    match Leftmost(s, DigitRun(k + 1), 0)
    case None =>
    case Some(i) =>
      StripSeparator(sep);
      StripConcat(s[..i + k], [sep]);
      StripConcat(s[..i + k] + [sep], s[i + k..]);
      StripConcat(s[..i + k], s[i + k..]);
      assert s == s[..i + k] + s[i + k..];
  }

  /** Masking invents and loses no digit: the digits of a masked string are the digits it was made from. */
  lemma GroupedDigits(t: string)
    requires AllDigits(t)
    ensures StripNonDigits(Grouped(t)) == t
  {
    StripIdentity(t);
    Step1(t);
    InsertKeepsDigits(t, 2, '.');
    Step2(t);
    InsertKeepsDigits(GroupedUpTo(t, 1), 3, '.');
    Step3(t);
    InsertKeepsDigits(GroupedUpTo(t, 2), 3, '/');
    Step4(t);
    InsertKeepsDigits(GroupedUpTo(t, 3), 4, '-');
  }

  /**
   * The layout of a masked CNPJ: its digits are exactly t, each separator
   * position holds its separator, every other position a digit, and a separator
   * is always followed by a digit.
   */
  lemma GroupedLayout(t: string)
    requires AllDigits(t) && |t| <= CnpjDigits
    ensures StripNonDigits(Grouped(t)) == t
    ensures |Grouped(t)| == |t| + SeparatorCount(|t|) <= MaskedLength
    ensures forall p :: 0 <= p < |Grouped(t)| ==>
      if SeparatorAt(p).Some? then Grouped(t)[p] == SeparatorAt(p).value else IsDigit(Grouped(t)[p])
    ensures forall p :: 0 <= p < |Grouped(t)| && !IsDigit(Grouped(t)[p]) ==>
      p + 1 < |Grouped(t)| && IsDigit(Grouped(t)[p + 1])
  {
    GroupedDigits(t);
    var r := Grouped(t);
    forall p | 0 <= p < |r|
      ensures if SeparatorAt(p).Some? then r[p] == SeparatorAt(p).value else IsDigit(r[p])
    {
      if SeparatorAt(p).None? {
        GroupedDigitAt(t, 4, p);
      }
    }
    forall p | 0 <= p < |r| && !IsDigit(r[p]) ensures p + 1 < |r| && IsDigit(r[p + 1]) {
      assert SeparatorAt(p).Some?;
      assert SeparatorAt(p + 1).None?;
      GroupedDigitAt(t, 4, p + 1);
    }
  }

  lemma Take14Digits(d: string)
    requires AllDigits(d)
    ensures AllDigits(Take14(d)) && |Take14(d)| <= CnpjDigits
    ensures |d| <= CnpjDigits ==> Take14(d) == d
  {
    var t := Take14(d);
    forall i | 0 <= i < |t| ensures IsDigit(t[i]) {
      assert t[i] == d[i];
    }
  }

  /**
   * The digits of the masked text are the first min(n, 14) digits typed, in
   * order: stripping the mask again at submit time gives them back.
   */
  lemma FormatCnpjDigits(value: string)
    ensures StripNonDigits(FormatCnpj(value)) == Take14(StripNonDigits(value))
  {
    FormatCnpjIsGrouping(value);
    Take14Digits(StripNonDigits(value));
    GroupedDigits(Take14(StripNonDigits(value)));
  }

  /**
   * The masked text holds only digits and the four separators, at their fixed
   * positions; it fits the field's 18 characters; text without digits masks to "".
   */
  lemma FormatCnpjShape(value: string)
    ensures |FormatCnpj(value)| <= MaskedLength
    ensures forall p :: 0 <= p < |FormatCnpj(value)| ==>
      if SeparatorAt(p).Some? then FormatCnpj(value)[p] == SeparatorAt(p).value else IsDigit(FormatCnpj(value)[p])
    ensures StripNonDigits(value) == [] <==> FormatCnpj(value) == []
  {
    var t := Take14(StripNonDigits(value));
    FormatCnpjIsGrouping(value);
    Take14Digits(StripNonDigits(value));
    GroupedLayout(t);
  }

  /** Masking an already masked text changes nothing. */
  lemma FormatCnpjIdempotent(value: string)
    ensures FormatCnpj(FormatCnpj(value)) == FormatCnpj(value)
  {
    var m := FormatCnpj(value);
    var t := Take14(StripNonDigits(value));
    FormatCnpjDigits(value);
    Take14Digits(StripNonDigits(value));
    Take14Digits(t);
    FormatCnpjIsGrouping(value);
    FormatCnpjIsGrouping(m);
  }

  /**
   * Raw and masked forms round-trip: a masked text is the mask of its own digits,
   * so stripping and re-masking gives back what the field showed.
   */
  lemma MaskedRoundTrip(value: string)
    ensures FormatCnpj(StripNonDigits(FormatCnpj(value))) == FormatCnpj(value)
  {
    var m := FormatCnpj(value);
    StripIdentity(StripNonDigits(m));
    assert StripNonDigits(StripNonDigits(m)) == StripNonDigits(m);
    FormatCnpjIsGrouping(StripNonDigits(m));
    FormatCnpjIsGrouping(m);
    FormatCnpjIdempotent(value);
  }

  /** Text with exactly 14 digits masks to NN.NNN.NNN/NNNN-NN, whose digits are those 14. */
  lemma FormatCnpjComplete(value: string)
    requires |StripNonDigits(value)| == CnpjDigits
    ensures var t := StripNonDigits(value);
      FormatCnpj(value) == t[..2] + "." + t[2..5] + "." + t[5..8] + "/" + t[8..12] + "-" + t[12..]
      && |FormatCnpj(value)| == MaskedLength
      && StripNonDigits(FormatCnpj(value)) == t
  {
    FormatCnpjIsGrouping(value);
    FormatCnpjDigits(value);
  }

  /** Whatever the field shows has at most 14 digits, so the key sent at submit time has at most 14. */
  lemma MaskedDigitsAtMost14(value: string)
    ensures |StripNonDigits(FormatCnpj(value))| <= CnpjDigits
  {
    FormatCnpjDigits(value);
    Take14Digits(StripNonDigits(value));
  }

  /** A grouped string of at most 14 digits is left unchanged by the mask: it is what the field can show. */
  lemma GroupedIsMasked(t: string)
    requires AllDigits(t) && |t| <= CnpjDigits
    ensures FormatCnpj(Grouped(t)) == Grouped(t)
  {
    FormatCnpjIsGrouping(Grouped(t));
    GroupedDigits(t);
    Take14Digits(t);
  }
}

/** Decimal numerals as the estimate cards show them, and the one-decimal rounding
    the statistics panel applies. JavaScript's `Number(...)`/`parseFloat(...)` is
    modelled by `ParseNum`, restricted to unsigned decimal numerals. */
module Numbers {
  import opened Optional

  predicate IsDigit(c: char) {
    '0' <= c <= '9'
  }

  predicate AllDigits(s: string) {
    forall i :: 0 <= i < |s| ==> IsDigit(s[i])
  }

  function DigitValue(c: char): (d: nat)
    requires IsDigit(c)
    ensures d < 10
  {
    c as int - '0' as int
  }

  /** The value of a run of decimal digits, most significant first. */
  function DigitsValue(s: string): nat
    requires AllDigits(s)
    decreases |s|
  {
    if |s| == 0 then 0 else DigitsValue(s[..|s| - 1]) * 10 + DigitValue(s[|s| - 1])
  }

  function Pow10(n: nat): (p: nat)
    ensures p >= 1
  {
    if n == 0 then 1 else 10 * Pow10(n - 1)
  }

  /** The index of the first '.', or `|s|` when there is none. */
  function DotIndex(s: string): (i: nat)
    ensures i <= |s|
    ensures i < |s| ==> s[i] == '.'
    ensures forall j :: 0 <= j < i ==> s[j] != '.'
  {
    if |s| == 0 || s[0] == '.' then 0 else 1 + DotIndex(s[1..])
  }

  /** An unsigned decimal numeral: only digits and at most one point, with at
      least one digit ("5", "0.5", "13", ".5", "5."). */
  predicate IsDecimal(s: string) {
    && (exists i :: 0 <= i < |s| && IsDigit(s[i]))
    && (forall i :: 0 <= i < |s| ==> IsDigit(s[i]) || s[i] == '.')
    && (forall i, j :: 0 <= i < j < |s| && s[i] == '.' ==> s[j] != '.')
  }

  /** The numeric value of a card face, `None` where JavaScript yields `NaN`:
      the digits before the point plus the digits after it scaled down. */
  function ParseNum(s: string): (r: Option<real>)
    ensures r.Some? ==> 0.0 <= r.value
  {
    var i := DotIndex(s);
    var whole, frac := s[..i], if i < |s| then s[i + 1..] else [];
    if AllDigits(whole) && AllDigits(frac) && 0 < |whole| + |frac| then
      Some(DigitsValue(whole) as real + DigitsValue(frac) as real / Pow10(|frac|) as real)
    else
      None
  }

  /** `ParseNum` accepts exactly the unsigned decimal numerals. */
  lemma ParseNumAccepts(s: string)
    ensures ParseNum(s).Some? <==> IsDecimal(s)
  {
    if ParseNum(s).Some? {
      AcceptedIsDecimal(s);
    }
    if IsDecimal(s) {
      DecimalIsAccepted(s);
    }
  }

  lemma AcceptedIsDecimal(s: string)
    requires ParseNum(s).Some?
    ensures IsDecimal(s)
  {
    var i := DotIndex(s);
    var whole, frac := s[..i], if i < |s| then s[i + 1..] else [];
    assert AllDigits(whole) && AllDigits(frac) && 0 < |whole| + |frac|;
    forall k | 0 <= k < |s| ensures IsDigit(s[k]) || s[k] == '.' {
      if k < i {
        assert s[k] == whole[k];
      } else if i < k {
        assert s[k] == frac[k - i - 1];
      }
    }
    forall k, m | 0 <= k < m < |s| && s[k] == '.' ensures s[m] != '.' {
      assert k == i;
      assert s[m] == frac[m - i - 1];
    }
    if 0 < |whole| {
      assert IsDigit(s[0]) by { assert s[0] == whole[0]; }
    } else {
      assert IsDigit(s[i + 1]) by { assert s[i + 1] == frac[0]; }
    }
  }

  lemma DecimalIsAccepted(s: string)
    requires IsDecimal(s)
    ensures ParseNum(s).Some?
  {
    var i := DotIndex(s);
    var whole, frac := s[..i], if i < |s| then s[i + 1..] else [];
    assert AllDigits(whole) by {
      forall k | 0 <= k < |whole| ensures IsDigit(whole[k]) {
        assert whole[k] == s[k];
      }
    }
    assert AllDigits(frac) by {
      forall k | 0 <= k < |frac| ensures IsDigit(frac[k]) {
        assert frac[k] == s[i + 1 + k];
      }
    }
    var k :| 0 <= k < |s| && IsDigit(s[k]);
    if k < i {
      assert whole[k] == s[k];
    } else {
      assert frac[k - i - 1] == s[k];
    }
  }

  function DigitChar(d: nat): (c: char)
    requires d < 10
    ensures IsDigit(c) && DigitValue(c) == d
  {
    ('0' as int + d) as char
  }

  /** The decimal numeral of a natural number; states the whole-number card faces. */
  function NatString(n: nat): (s: string)
    ensures 0 < |s| && AllDigits(s)
  {
    if n < 10 then [DigitChar(n)] else NatString(n / 10) + [DigitChar(n % 10)]
  }

  lemma {:induction false} NatStringValue(n: nat)
    ensures DigitsValue(NatString(n)) == n
  {
    if n >= 10 {
      var s := NatString(n);
      assert s[..|s| - 1] == NatString(n / 10);
      NatStringValue(n / 10);
    }
  }

  /** Reading back a whole number written in decimal yields that number. */
  lemma NatStringRoundTrip(n: nat)
    ensures ParseNum(NatString(n)) == Some(n as real)
  {
    var s := NatString(n);
    assert DotIndex(s) == |s| by {
      if DotIndex(s) < |s| {
        assert false;
      }
    }
    assert s[..|s|] == s;
    NatStringValue(n);
  }

  /** Every numeral parses as a number and the values strictly increase. */
  predicate StrictlyAscending(cards: seq<string>) {
    && (forall i :: 0 <= i < |cards| ==> ParseNum(cards[i]).Some?)
    && forall i, j :: 0 <= i < j < |cards| ==> ParseNum(cards[i]).value < ParseNum(cards[j]).value
  }

  /** Numbers that rise from each one to the next rise across the whole list. */
  lemma {:induction false} StepsChain(ns: seq<nat>, i: nat, j: nat)
    requires forall k :: 0 <= k < |ns| - 1 ==> ns[k] < ns[k + 1]
    requires i < j < |ns|
    ensures ns[i] < ns[j]
    decreases j - i
  {
    if i + 1 < j {
      StepsChain(ns, i + 1, j);
    }
  }

  /** The decimal numerals of a list of whole numbers. */
  function Numerals(ns: seq<nat>): (cards: seq<string>)
    ensures |cards| == |ns|
    ensures forall i :: 0 <= i < |ns| ==> cards[i] == NatString(ns[i])
  {
    if |ns| == 0 then [] else [NatString(ns[0])] + Numerals(ns[1..])
  }

  /** Each numeral reads back as the number it was written from. */
  lemma NumeralValues(ns: seq<nat>)
    ensures forall i :: 0 <= i < |ns| ==> ParseNum(Numerals(ns)[i]) == Some(ns[i] as real)
  {
    forall i | 0 <= i < |ns| ensures ParseNum(Numerals(ns)[i]) == Some(ns[i] as real) {
      NatStringRoundTrip(ns[i]);
    }
  }

  /** Numerals of a rising list of whole numbers rise in value. */
  lemma NumeralsAscending(ns: seq<nat>)
    requires forall k :: 0 <= k < |ns| - 1 ==> ns[k] < ns[k + 1]
    ensures StrictlyAscending(Numerals(ns))
  {
    NumeralValues(ns);
    forall i, j | 0 <= i < j < |ns|
      ensures ParseNum(Numerals(ns)[i]).value < ParseNum(Numerals(ns)[j]).value
    {
      StepsChain(ns, i, j);
    }
  }

  /** A smaller numeral in front keeps a rising list rising. */
  lemma PrependAscending(c: string, v: real, cards: seq<string>)
    requires ParseNum(c) == Some(v)
    requires StrictlyAscending(cards)
    requires 0 < |cards| ==> v < ParseNum(cards[0]).value
    ensures StrictlyAscending([c] + cards)
  {
    var all := [c] + cards;
    forall i | 0 < i < |all| ensures all[i] == cards[i - 1] {
    }
    forall i, j | 0 <= i < j < |all|
      ensures ParseNum(all[i]).value < ParseNum(all[j]).value
    {
      if i == 0 && 1 < j {
        assert ParseNum(cards[0]).value < ParseNum(cards[j - 1]).value;
      }
    }
  }


  /** `Math.round(x * 10) / 10`: `Math.round` rounds to the nearest integer,
      halves upwards. */
  function RoundToTenth(x: real): (r: real)
    ensures x - 0.05 < r <= x + 0.05
    ensures (r * 10.0).Floor as real == r * 10.0
  {
    (x * 10.0 + 0.5).Floor as real / 10.0
  }
}

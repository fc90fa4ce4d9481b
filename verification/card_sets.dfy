/** The estimate card sets a session can be created with (`SIZING_OPTIONS` in
    lib/supabase.ts). */
module CardSets {
  import opened Optional
  import opened Numbers

  datatype SizingType = Fibonacci | ShortFibonacci | TShirt | TShirtNumbers

  /** `SIZING_OPTIONS[type]`. */
  function SizingOptions(t: SizingType): seq<string> {
    match t
    case Fibonacci => ["0", "1", "2", "3", "5", "8", "13", "21", "34", "55", "89"]
    case ShortFibonacci => ["0", "0.5", "1", "2", "3", "5", "8", "13", "20", "40", "100"]
    case TShirt => ["XXS", "XS", "S", "M", "L", "XL", "XXL"]
    case TShirtNumbers => ["S", "M", "L", "XL", "1", "2", "3", "4", "5"]
  }

  predicate NoDuplicates(cards: seq<string>) {
    forall i, j :: 0 <= i < j < |cards| ==> cards[i] != cards[j]
  }

  /** No card set offers the same card twice. */
  lemma SizingOptionsDistinct(t: SizingType)
    ensures NoDuplicates(SizingOptions(t))
  {
  }

  /** The Fibonacci cards are the numerals of their values. The values come in
      as a parameter because a literal in the ensures makes the solver unfold
      `Numerals` on every use and run out of resource. */
  lemma FibonacciNumerals(ns: seq<nat>)
    requires ns == [0, 1, 2, 3, 5, 8, 13, 21, 34, 55, 89]
    ensures SizingOptions(Fibonacci) == Numerals(ns)
  {
    var cards := Numerals(ns);
    assert cards[0] == "0" && cards[1] == "1" && cards[2] == "2" && cards[3] == "3";
    assert cards[4] == "5" && cards[5] == "8" && cards[6] == "13" && cards[7] == "21";
    assert cards[8] == "34" && cards[9] == "55" && cards[10] == "89";
  }

  /** The short Fibonacci cards after "0" and "0.5" are numerals; the values
      are a parameter for the same reason as in `FibonacciNumerals`. */
  lemma ShortFibonacciNumerals(ns: seq<nat>)
    requires ns == [1, 2, 3, 5, 8, 13, 20, 40, 100]
    ensures SizingOptions(ShortFibonacci) == ["0"] + (["0.5"] + Numerals(ns))
  {
    var cards := Numerals(ns);
    assert cards[0] == "1" && cards[1] == "2" && cards[2] == "3" && cards[3] == "5";
    assert cards[4] == "8" && cards[5] == "13" && cards[6] == "20" && cards[7] == "40";
    assert cards[8] == "100";
  }

  /** The Fibonacci set is ordered by value. */
  lemma FibonacciAscending()
    ensures StrictlyAscending(SizingOptions(Fibonacci))
  {
    var ns: seq<nat> := [0, 1, 2, 3, 5, 8, 13, 21, 34, 55, 89];
    NumeralsAscending(ns);
    FibonacciNumerals(ns);
  }

  /** The half-point card is worth one half. */
  lemma HalfCardValue()
    ensures ParseNum("0.5") == Some(0.5)
  {
    assert DotIndex("0.5") == 1;
    assert "0.5"[..1] == "0" && "0.5"[2..] == "5";
  }

  lemma ZeroCardValue()
    ensures ParseNum("0") == Some(0.0)
  {
    NatStringRoundTrip(0);
    assert NatString(0) == "0";
  }

  /** One half in front of rising numerals from one upwards. */
  lemma HalfAscending(ns: seq<nat>)
    requires forall k :: 0 <= k < |ns| - 1 ==> ns[k] < ns[k + 1]
    requires 0 < |ns| ==> 1 <= ns[0]
    ensures StrictlyAscending(["0.5"] + Numerals(ns))
  {
    NumeralsAscending(ns);
    NumeralValues(ns);
    HalfCardValue();
    PrependAscending("0.5", 0.5, Numerals(ns));
  }

  /** Zero in front of a rising list that starts at one half. */
  lemma ZeroBeforeHalf(rest: seq<string>)
    requires StrictlyAscending(rest) && 0 < |rest| && rest[0] == "0.5"
    ensures StrictlyAscending(["0"] + rest)
  {
    ZeroCardValue();
    HalfCardValue();
    PrependAscending("0", 0.0, rest);
  }

  /** The short Fibonacci set, with its half-point card, is ordered by value. */
  lemma ShortFibonacciAscending()
    ensures StrictlyAscending(SizingOptions(ShortFibonacci))
  {
    var ns: seq<nat> := [1, 2, 3, 5, 8, 13, 20, 40, 100];
    HalfAscending(ns);
    ZeroBeforeHalf(["0.5"] + Numerals(ns));
    ShortFibonacciNumerals(ns);
  }
}

/** The estimate rows a session page holds (`Estimate` in lib/supabase.ts) and the
    per-participant view of them that the participants table renders. */
module Estimates {
  import opened Optional
  import opened Seqs

  /** One participant's card for the current round; `estimate` is `null` until a
      card is picked. Timestamps are not modelled. */
  datatype Estimate = Estimate(id: string, sessionId: string, userName: string, estimate: Option<string>)

  /** The estimate as a JavaScript condition sees it: `null` and `""` are falsy. */
  function ShownValue(e: Estimate): Option<string> {
    if e.estimate.Some? && e.estimate.value != "" then e.estimate else None
  }

  /** `estimates.filter((e) => e.estimate).map((e) => e.estimate!)`. */
  function RevealedValues(es: seq<Estimate>): (r: seq<string>)
    ensures |r| <= |es|
    ensures forall v | v in r :: v != "" && exists e :: e in es && e.estimate == Some(v)
    ensures forall e | e in es && e.estimate.Some? && e.estimate.value != "" :: e.estimate.value in r
  {
    FilterMapMembers(es, ShownValue);
    FilterMap(es, ShownValue)
  }

  /** Revealed values keep the order of the rows they come from. */
  lemma RevealedValuesAppend(a: seq<Estimate>, b: seq<Estimate>)
    ensures RevealedValues(a + b) == RevealedValues(a) + RevealedValues(b)
  {
    FilterMapAppend(a, b, ShownValue);
  }

  lemma RevealedValuesPermutation(a: seq<Estimate>, b: seq<Estimate>)
    requires multiset(a) == multiset(b)
    ensures multiset(RevealedValues(a)) == multiset(RevealedValues(b))
  {
    FilterMapPermutation(a, b, ShownValue);
  }

  /** Row `i` is the first row for participant `name`. */
  predicate IsFirstEntryOf(es: seq<Estimate>, name: string, i: int) {
    && 0 <= i < |es|
    && es[i].userName == name
    && forall j :: 0 <= j < i ==> es[j].userName != name
  }

  /** `estimates.find((e) => e.user_name === userName)?.estimate`: `None` for
      `undefined` (no row), `Some(None)` for a row whose estimate is `null`. */
  function UserEstimate(es: seq<Estimate>, name: string): (r: Option<Option<string>>)
    ensures r.None? <==> forall i :: 0 <= i < |es| ==> es[i].userName != name
    ensures r.Some? ==> exists i :: IsFirstEntryOf(es, name, i) && es[i].estimate == r.value
  {
    if |es| == 0 then None
    else if es[0].userName == name then
      assert IsFirstEntryOf(es, name, 0);
      Some(es[0].estimate)
    else
      var r := UserEstimate(es[1..], name);
      if r.Some? then
        var i :| IsFirstEntryOf(es[1..], name, i) && es[1..][i].estimate == r.value;
        assert IsFirstEntryOf(es, name, i + 1);
        r
      else
        r
  }

  /** What a participant's row shows: no card, a face-down card, or the card. */
  datatype Cell = NoCard | FaceDown | FaceUp(card: string)

  /** The card column of one participant row. */
  function UserCell(es: seq<Estimate>, name: string, revealed: bool): (c: Cell)
    ensures !revealed ==> !c.FaceUp?
    ensures revealed && c != NoCard ==> c.FaceUp?
    ensures c.FaceUp? ==> c.card in RevealedValues(es)
    ensures c.FaceUp? ==> UserEstimate(es, name) == Some(Some(c.card))
    ensures c == NoCard <==> forall i | IsFirstEntryOf(es, name, i) :: ShownValue(es[i]).None?
  {
    match UserEstimate(es, name)
    case Some(Some(v)) =>
      if v == "" then NoCard
      else if revealed then FaceUp(v) else FaceDown
    case _ => NoCard
  }
}

/**
 The charge-codes screen: the fetched codes filtered by a search term that is
 matched against the code text (ignoring case) or the decimal identifier
 (verbatim), and the card number shown on each filtered code.
 */
module Codes {
  import opened Text
  import opened Filtering

  datatype ChargeCode = ChargeCode(id: int, code: string)

  predicate CodeMatches(c: ChargeCode, term: string) {
    ContainsIgnoringCase(c.code, term) || Contains(IntToString(c.id), term)
  }

  /** The filter callback of `filteredCodes`. */
  function MatchesTerm(term: string): ChargeCode -> bool {
    (c: ChargeCode) => CodeMatches(c, term)
  }

  function FilteredCodes(codes: seq<ChargeCode>, term: string): (r: seq<ChargeCode>)
    ensures forall k :: 0 <= k < |r| ==> CodeMatches(r[k], term)
    ensures forall j :: 0 <= j < |codes| && CodeMatches(codes[j], term) ==> codes[j] in r
  {
    Filter(codes, MatchesTerm(term))
  }

  /** A card: the number it shows ("code number n") and its code. */
  datatype Card = Card(number: nat, code: ChargeCode)

  /**
   `filteredCodes.map((code, index) => <CodeCard index={index} />)`: the card
   numbers run 1, 2, 3, … over the filtered list, whatever the codes'
   positions in the fetched list.
   */
  function Cards(codes: seq<ChargeCode>, term: string): (cards: seq<Card>)
    ensures |cards| == |FilteredCodes(codes, term)|
    ensures forall k :: 0 <= k < |cards| ==> cards[k].code == FilteredCodes(codes, term)[k]
    ensures forall k :: 0 <= k < |cards| ==> cards[k].number == k + 1
  {
    var shown := FilteredCodes(codes, term);
    seq(|shown|, k requires 0 <= k < |shown| => Card(k + 1, shown[k]))
  }

  /**
   The filtered codes are the fetched list at strictly increasing positions,
   exactly those whose code matches the term.
   */
  lemma CodeSelection(codes: seq<ChargeCode>, term: string) returns (idx: seq<nat>)
    ensures |idx| == |FilteredCodes(codes, term)|
    ensures forall k :: 0 <= k < |idx| ==> idx[k] < |codes| && FilteredCodes(codes, term)[k] == codes[idx[k]]
    ensures forall k, l :: 0 <= k < l < |idx| ==> idx[k] < idx[l]
    ensures forall j :: 0 <= j < |codes| ==> (CodeMatches(codes[j], term) <==> j in idx)
  {
    idx := FilterSelects(codes, MatchesTerm(term));
  }

  /** An empty search keeps every code, in order, numbered by position. */
  lemma EmptyTermKeepsAll(codes: seq<ChargeCode>)
    ensures FilteredCodes(codes, "") == codes
    ensures forall k :: 0 <= k < |codes| ==> Cards(codes, "")[k] == Card(k + 1, codes[k])
  {
    assert Lower("") == "";
    forall j | 0 <= j < |codes|
      ensures CodeMatches(codes[j], "")
    {
      ContainsEmpty(Lower(codes[j].code));
    }
    FilterKeepsAll(codes, MatchesTerm(""));
  }

  /**
   A search term that contains another keeps only codes the shorter term
   keeps, in the same order.
   */
  lemma LongerTermNarrows(codes: seq<ChargeCode>, t1: string, t2: string)
    requires Contains(t2, t1)
    ensures FilteredCodes(codes, t2) == Filter(FilteredCodes(codes, t1), MatchesTerm(t2))
    ensures forall c :: c in FilteredCodes(codes, t2) ==> c in FilteredCodes(codes, t1)
  {
    forall j | 0 <= j < |codes| && CodeMatches(codes[j], t2)
      ensures CodeMatches(codes[j], t1)
    {
      if ContainsIgnoringCase(codes[j].code, t2) {
        ContainsIgnoringCaseNarrows(codes[j].code, t1, t2);
      } else {
        ContainsTransitive(IntToString(codes[j].id), t2, t1);
      }
    }
    FilterNarrows(codes, MatchesTerm(t1), MatchesTerm(t2));
  }

  /** A code that is second in the fetched list but first to match is shown as card number 1. */
  lemma NumberIsFilteredPosition()
    ensures Cards([ChargeCode(1, "ab"), ChargeCode(2, "xyz")], "xyz") == [Card(1, ChargeCode(2, "xyz"))]
  {
    var codes := [ChargeCode(1, "ab"), ChargeCode(2, "xyz")];
    assert IntToString(1) == "1" && IntToString(2) == "2";
    assert !CodeMatches(codes[0], "xyz");
    assert Lower("xyz") == "xyz";
    assert OccursAt(Lower("xyz"), Lower("xyz"), 0);
    assert CodeMatches(codes[1], "xyz");
    assert codes[1..] == [codes[1]];
    assert FilteredCodes(codes, "xyz") == [codes[1]];
  }
}

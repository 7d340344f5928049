/**
 The services screen: the fetched list filtered by a search term, and the
 count shown in the list heading. Only the two searched fields of a service
 are modelled.
 */
module Services {
  import opened Text
  import opened Filtering

  datatype Service = Service(name: string, description: string)

  predicate ServiceMatches(s: Service, term: string) {
    ContainsIgnoringCase(s.name, term) || ContainsIgnoringCase(s.description, term)
  }

  /** The filter callback of `filteredServices`. */
  function MatchesTerm(term: string): Service -> bool {
    (s: Service) => ServiceMatches(s, term)
  }

  function FilteredServices(services: seq<Service>, term: string): (r: seq<Service>)
    ensures forall k :: 0 <= k < |r| ==> ServiceMatches(r[k], term)
    ensures forall j :: 0 <= j < |services| && ServiceMatches(services[j], term) ==> services[j] in r
  {
    Filter(services, MatchesTerm(term))
  }

  /** The number in the heading: the length of the filtered list, never more than was fetched. */
  function ShownCount(services: seq<Service>, term: string): (n: nat)
    ensures n <= |services|
    ensures n == 0 <==> forall j :: 0 <= j < |services| ==> !ServiceMatches(services[j], term)
  {
    var r := FilteredServices(services, term);
    assert |r| > 0 ==> ServiceMatches(r[0], term);
    |r|
  }

  /**
   The shown services are the fetched list at strictly increasing positions,
   and a position is shown exactly when its service matches the term.
   */
  lemma ServiceSelection(services: seq<Service>, term: string) returns (idx: seq<nat>)
    ensures |idx| == |FilteredServices(services, term)| == ShownCount(services, term)
    ensures forall k :: 0 <= k < |idx| ==> idx[k] < |services| && FilteredServices(services, term)[k] == services[idx[k]]
    ensures forall k, l :: 0 <= k < l < |idx| ==> idx[k] < idx[l]
    ensures forall j :: 0 <= j < |services| ==> (ServiceMatches(services[j], term) <==> j in idx)
  {
    idx := FilterSelects(services, MatchesTerm(term));
  }

  /** An empty search keeps every service, in order. */
  lemma EmptyTermKeepsAll(services: seq<Service>)
    ensures FilteredServices(services, "") == services
  {
    assert Lower("") == "";
    forall j | 0 <= j < |services|
      ensures ServiceMatches(services[j], "")
    {
      ContainsEmpty(Lower(services[j].name));
    }
    FilterKeepsAll(services, MatchesTerm(""));
  }

  /**
   A search term that contains another keeps only services the shorter term
   keeps, in the same order.
   */
  lemma LongerTermNarrows(services: seq<Service>, t1: string, t2: string)
    requires Contains(t2, t1)
    ensures FilteredServices(services, t2) == Filter(FilteredServices(services, t1), MatchesTerm(t2))
    ensures forall s :: s in FilteredServices(services, t2) ==> s in FilteredServices(services, t1)
    ensures ShownCount(services, t2) <= ShownCount(services, t1)
  {
    forall j | 0 <= j < |services| && ServiceMatches(services[j], t2)
      ensures ServiceMatches(services[j], t1)
    {
      if ContainsIgnoringCase(services[j].name, t2) {
        ContainsIgnoringCaseNarrows(services[j].name, t1, t2);
      } else {
        ContainsIgnoringCaseNarrows(services[j].description, t1, t2);
      }
    }
    FilterNarrows(services, MatchesTerm(t1), MatchesTerm(t2));
  }
}

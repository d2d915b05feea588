/** Choosing among the payloads of one poll (dashboard/public/data.jsx, `selectPreferredStatusPayload`). */
module Selection {
  import opened Prelude
  import opened Status
  import opened Sorting

  function Flag(b: bool): int {
    if b then 1 else 0
  }

  /** The comparator: negative when `left` is preferred. */
  function Compare(left: Payload, right: Payload): int {
    var sourceDiff := SourceRank(right.source) - SourceRank(left.source);
    if sourceDiff != 0 then sourceDiff
    else
      var baselineDiff := Flag(HasActiveBaseline(right.status)) - Flag(HasActiveBaseline(left.status));
      if baselineDiff != 0 then baselineDiff
      else GeneratedAtMs(right.status).GetOr(0) - GeneratedAtMs(left.status).GetOr(0)
  }

  predicate Preferred(left: Payload, right: Payload) {
    Compare(left, right) < 0
  }

  predicate HasStatus(candidate: Option<Payload>) {
    candidate.Some? && candidate.value.status.Some?
  }

  predicate Complete(candidate: Option<Payload>) {
    HasStatus(candidate) && HasDashboardCapital(candidate.value.status.value)
  }

  /** The candidates that compete: the complete ones, or all with a status when none is complete. */
  function Eligible(candidates: seq<Option<Payload>>): (r: seq<Option<Payload>>)
    ensures forall c :: c in r ==> c in candidates && HasStatus(c)
  {
    var complete := Filter(candidates, Complete);
    if complete != [] then complete else Filter(candidates, HasStatus)
  }

  predicate PreferredCandidate(left: Option<Payload>, right: Option<Payload>) {
    left.Some? && (right.None? || Preferred(left.value, right.value))
  }

  function Select(candidates: seq<Option<Payload>>): Payload {
    var comparable := Eligible(candidates);
    if comparable == [] then Payload(None, Unavailable, false)
    else
      var sorted := Sort(comparable, PreferredCandidate);
      assert sorted[0] in multiset(sorted);
      assert sorted[0] in comparable;
      sorted[0].value
  }

  /** The comparator is consistent, so the order of the source's sort is determined up to ties. */
  lemma ComparatorConsistent(a: Payload, b: Payload, c: Payload)
    ensures Compare(a, b) == -Compare(b, a)
    ensures Compare(a, b) <= 0 && Compare(b, c) <= 0 ==> Compare(a, c) <= 0
    ensures Compare(a, b) == 0 && Compare(b, c) == 0 ==> Compare(a, c) == 0
  {
  }

  /** Equal under the comparator means equal rank, baseline and time. */
  lemma TiesAgree(a: Payload, b: Payload)
    ensures Compare(a, b) == 0 <==>
      && SourceRank(a.source) == SourceRank(b.source)
      && HasActiveBaseline(a.status) == HasActiveBaseline(b.status)
      && GeneratedAtMs(a.status).GetOr(0) == GeneratedAtMs(b.status).GetOr(0)
  {
  }

  lemma CandidateOrder()
    ensures WeakOrder(PreferredCandidate)
  {
    forall a: Option<Payload>, b: Option<Payload>, c: Option<Payload>
      ensures PreferredCandidate(a, b) ==> !PreferredCandidate(b, a)
      ensures !PreferredCandidate(b, a) && !PreferredCandidate(c, b) ==> !PreferredCandidate(c, a)
    {
      if a.Some? && b.Some? && c.Some? {
        ComparatorConsistent(a.value, b.value, c.value);
        ComparatorConsistent(b.value, c.value, a.value);
        ComparatorConsistent(c.value, a.value, b.value);
      }
      if a.Some? && b.Some? {
        ComparatorConsistent(a.value, b.value, a.value);
      }
    }
  }

  /** The sort refines a single scan for the best candidate, the earliest among equals. */
  lemma SelectIsScan(candidates: seq<Option<Payload>>)
    requires Eligible(candidates) != []
    ensures Some(Select(candidates)) == Best(Eligible(candidates), PreferredCandidate)
  {
    var comparable := Eligible(candidates);
    CandidateOrder();
    BestUnbeaten(comparable, PreferredCandidate);
    SortStartsWithBest(comparable, PreferredCandidate);
  }

  /** Any stable sort, not only the one modelled here, puts that candidate first. */
  lemma AnyStableSortSelects(
      candidates: seq<Option<Payload>>, sorted: seq<Option<Payload>>, from: seq<nat>, to: seq<nat>)
    requires Eligible(candidates) != []
    requires StableSort(Eligible(candidates), sorted, from, to, PreferredCandidate)
    ensures sorted[0] == Some(Select(candidates))
  {
    CandidateOrder();
    StableSortStartsWithBest(Eligible(candidates), sorted, from, to, PreferredCandidate);
    SelectIsScan(candidates);
  }

  /** The result is one of the candidates, is complete when any candidate is, and is beaten by no
      eligible candidate. Without any status the result is the unavailable payload. */
  lemma SelectIsBest(candidates: seq<Option<Payload>>)
    ensures (exists c :: c in candidates && HasStatus(c)) <==> Select(candidates).status.Some?
    ensures Select(candidates).status.Some? ==>
      && Some(Select(candidates)) in candidates
      && ((exists c :: c in candidates && Complete(c)) ==> Complete(Some(Select(candidates))))
    ensures forall c :: c in Eligible(candidates) ==> Compare(Select(candidates), c.value) <= 0
  {
    var comparable := Eligible(candidates);
    if comparable != [] {
      SelectIsScan(candidates);
      CandidateOrder();
      BestUnbeaten(comparable, PreferredCandidate);
      forall c | c in comparable
        ensures Compare(Select(candidates), c.value) <= 0
      {
        assert !PreferredCandidate(c, Some(Select(candidates)));
        ComparatorConsistent(c.value, Select(candidates), c.value);
      }
      assert comparable[0] in candidates && HasStatus(comparable[0]);
    } else {
      assert Filter(candidates, HasStatus) == [];
    }
  }

  lemma EligiblePermutation(left: seq<Option<Payload>>, right: seq<Option<Payload>>)
    requires multiset(left) == multiset(right)
    ensures multiset(Eligible(left)) == multiset(Eligible(right))
  {
    FilterPermutation(left, right, Complete);
    FilterPermutation(left, right, HasStatus);
    assert |Filter(left, Complete)| == |multiset(Filter(left, Complete))|;
    assert |Filter(right, Complete)| == |multiset(Filter(right, Complete))|;
  }

  /** The order in which candidates arrive matters only among ties. */
  lemma SelectUpToTies(left: seq<Option<Payload>>, right: seq<Option<Payload>>)
    requires multiset(left) == multiset(right)
    ensures Compare(Select(left), Select(right)) == 0
  {
    EligiblePermutation(left, right);
    var l, r := Eligible(left), Eligible(right);
    assert |l| == |multiset(l)| == |multiset(r)| == |r|;
    if l != [] {
      SelectIsScan(left);
      SelectIsScan(right);
      CandidateOrder();
      BestUnbeaten(l, PreferredCandidate);
      BestUnbeaten(r, PreferredCandidate);
      assert Some(Select(left)) in multiset(r) && Some(Select(right)) in multiset(l);
      SelectIsBest(left);
      SelectIsBest(right);
      ComparatorConsistent(Select(left), Select(right), Select(left));
    }
  }
}

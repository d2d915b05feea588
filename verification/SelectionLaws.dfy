/** Which payload of a poll is selected, in terms of the payloads' fields (dashboard/public/data.jsx). */
module SelectionLaws {
  import opened Prelude
  import opened Status
  import opened StatusLaws
  import opened Selection
  import Sorting

  /** The sources in the order they are preferred; all others come behind. */
  const SOURCES := [RemoteLiveSse, LiveSse, RemoteLiveApi, LiveApi, StaticSnapshot]

  /** `a` is listed and `b` is not listed up to its place. */
  ghost predicate Ahead(a: Source, b: Source) {
    exists i :: 0 <= i < |SOURCES| && SOURCES[i] == a && b !in SOURCES[..i + 1]
  }

  /** Neither source is ahead of the other. */
  ghost predicate Level(a: Source, b: Source) {
    !Ahead(a, b) && !Ahead(b, a)
  }

  /** A candidate competes: it has a status, and is complete if any candidate is. */
  ghost predicate Competes(c: Payload, candidates: seq<Option<Payload>>) {
    && Some(c) in candidates && c.status.Some?
    && ((exists d :: Some(d) in candidates && CompleteByFields(d.status)) ==> CompleteByFields(c.status))
  }

  lemma CompetesExactly(c: Payload, candidates: seq<Option<Payload>>)
    ensures Competes(c, candidates) <==> Some(c) in Eligible(candidates)
  {
    forall d: Payload
      ensures Complete(Some(d)) <==> CompleteByFields(d.status)
    {
      CompleteMeans(d.status);
    }
    hide CompleteByFields, HasDashboardCapital;
    forall d: Payload
      ensures Some(d) in Filter(candidates, Complete) <==> Some(d) in candidates && CompleteByFields(d.status)
    {
      assert Complete(Some(d)) <==> CompleteByFields(d.status);
    }
    SomeComplete(candidates);
  }

  /** Some candidate passes the completeness filter exactly when some payload does. */
  lemma SomeComplete(candidates: seq<Option<Payload>>)
    ensures Filter(candidates, Complete) != [] <==> exists d :: Some(d) in Filter(candidates, Complete)
  {
    var complete := Filter(candidates, Complete);
    if complete != [] {
      assert complete[0] in complete && Complete(complete[0]);
      assert complete[0] == Some(complete[0].value);
    }
  }

  lemma PlaceIsRank(source: Source)
    ensures SourceRank(source) <= 5 && (SourceRank(source) > 0 ==> SOURCES[5 - SourceRank(source)] == source)
    ensures forall i :: 0 <= i < |SOURCES| ==> SourceRank(SOURCES[i]) == 5 - i
  {
  }

  lemma AheadIsRank(a: Source, b: Source)
    ensures Ahead(a, b) <==> SourceRank(a) > SourceRank(b)
  {
    PlaceIsRank(a);
    PlaceIsRank(b);
    assert |SOURCES| == 5;
    hide SourceRank, SOURCES;
    if SourceRank(a) > SourceRank(b) {
      var i := 5 - SourceRank(a);
      assert SOURCES[i] == a && b !in SOURCES[..i + 1];
    } else if SourceRank(b) > 0 {
      var k := 5 - SourceRank(b);
      forall i | 0 <= i < 5 && SOURCES[i] == a
        ensures b in SOURCES[..i + 1]
      {
        assert SOURCES[..i + 1][k] == b;
      }
    }
  }

  /** Of the candidates that compete none has a source ahead of the selected one's; none on its level
      has an active baseline when the selected one has none; and none on its level with the same flag
      has a later time. */
  lemma SelectByFields(candidates: seq<Option<Payload>>, c: Payload)
    requires Competes(c, candidates)
    ensures var r := Select(candidates);
      && Competes(r, candidates)
      && !Ahead(c.source, r.source)
      && (Level(c.source, r.source) && ActiveByFields(c.status) ==> ActiveByFields(r.status))
      && (Level(c.source, r.source) && (ActiveByFields(c.status) <==> ActiveByFields(r.status)) ==>
            TimeByFields(c.status) <= TimeByFields(r.status))
  {
    var r := Select(candidates);
    CompetesExactly(c, candidates);
    CompetesExactly(r, candidates);
    SelectIsBest(candidates);
    SelectIsScan(candidates);
    SelectionIsEligible(candidates);
    AheadIsRank(c.source, r.source);
    AheadIsRank(r.source, c.source);
    ActiveMeans(c.status);
    ActiveMeans(r.status);
    TimeMeans(c.status);
    TimeMeans(r.status);
    assert Compare(r, Some(c).value) <= 0;
    hide Eligible, Select, Ahead, ActiveByFields, TimeByFields, HasActiveBaseline, GeneratedAtMs, SourceRank, Competes;
  }

  lemma SelectionIsEligible(candidates: seq<Option<Payload>>)
    requires Eligible(candidates) != []
    ensures Some(Select(candidates)) in Eligible(candidates)
  {
    SelectIsScan(candidates);
    CandidateOrder();
    Sorting.BestUnbeaten(Eligible(candidates), PreferredCandidate);
  }

  /** Without any candidate that has a status the result says so. */
  lemma SelectNothing(candidates: seq<Option<Payload>>)
    requires forall c :: Some(c) in candidates ==> c.status.None?
    ensures Select(candidates) == Payload(None, Unavailable, false)
  {
    forall c: Option<Payload> | c in candidates
      ensures c.None? || c.value.status.None?
    {
      assert c.Some? ==> c == Some(c.value);
    }
    FilterNone(candidates, Complete);
    FilterNone(candidates, HasStatus);
  }
}

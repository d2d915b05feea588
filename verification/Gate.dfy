/** The gate at the top of `bootData` (dashboard/public/data.jsx): whether an incoming snapshot
    replaces the current one, and what a run of pushes converges to. */
module Gate {
  import opened Prelude
  import opened Status

  /** The gate keeps the current snapshot. `preserve` is set for pushed snapshots. */
  predicate Keeps(current: Option<Snapshot>, incoming: Option<Snapshot>, preserve: bool) {
    || (preserve && current.Some? && HasActiveBaseline(current) && !HasActiveBaseline(incoming))
    || (&& current.Some?
        && GeneratedAtMs(current).Some?
        && GeneratedAtMs(incoming).Some?
        && GeneratedAtMs(incoming).value < GeneratedAtMs(current).value
        && HasActiveBaseline(current) == HasActiveBaseline(incoming))
  }

  /** How a snapshot ranks: an active baseline first, then time. */
  datatype Standing = Standing(active: bool, ms: nat) {
    predicate AtLeast(other: Standing) {
      if active == other.active then ms >= other.ms else active
    }
  }

  function StandingOf(status: Option<Snapshot>): Standing {
    Standing(HasActiveBaseline(status), GeneratedAtMs(status).GetOr(0))
  }

  predicate Parses(status: Option<Snapshot>) {
    GeneratedAtMs(status).Some?
  }

  /** An undated snapshot of the same baseline slips past the time guard. */
  predicate SlipsThrough(current: Option<Snapshot>, incoming: Option<Snapshot>) {
    && current.Some?
    && !Parses(incoming)
    && HasActiveBaseline(current) == HasActiveBaseline(incoming)
    && StandingOf(current).ms > 0
  }

  /** A push is accepted exactly when it ranks at least as high as the current snapshot, for all
      snapshots except those that slip through on an unparseable date. */
  lemma PushGateIsRank(current: Option<Snapshot>, incoming: Option<Snapshot>)
    ensures (!Keeps(current, incoming, true) <==> StandingOf(incoming).AtLeast(StandingOf(current)))
       <==> !SlipsThrough(current, incoming)
  {
  }

  /** An example of what slips through: an undated push replaces a dated snapshot and ranks lower. */
  lemma UndatedPushSlipsThrough()
    ensures exists current: Option<Snapshot>, incoming: Option<Snapshot> ::
      !Keeps(current, incoming, true) && !StandingOf(incoming).AtLeast(StandingOf(current))
  {
    var current := Some(Snapshot(At(1), None, None, None, None, false));
    var incoming := Some(Snapshot(Unparseable, None, None, None, None, false));
    assert !Keeps(current, incoming, true);
    assert !StandingOf(incoming).AtLeast(StandingOf(current));
  }

  /** An accepted poll lowers the rank exactly when it takes the baseline from active to inactive, a
      null status counting as inactive, or slips through on its date. */
  lemma PollGateDrops(current: Option<Snapshot>, incoming: Option<Snapshot>)
    ensures !Keeps(current, incoming, false) && !StandingOf(incoming).AtLeast(StandingOf(current))
       <==> (HasActiveBaseline(current) && !HasActiveBaseline(incoming)) || SlipsThrough(current, incoming)
  {
  }

  // ----- runs of pushes -----

  function Push(current: Option<Snapshot>, incoming: Option<Snapshot>): Option<Snapshot> {
    if Keeps(current, incoming, true) then current else incoming
  }

  function PushAll(current: Option<Snapshot>, pushes: seq<Option<Snapshot>>): Option<Snapshot>
    decreases pushes
  {
    if pushes == [] then current else PushAll(Push(current, pushes[0]), pushes[1..])
  }

  lemma {:induction false} PushAllAppend(
      current: Option<Snapshot>, pushes: seq<Option<Snapshot>>, more: seq<Option<Snapshot>>)
    ensures PushAll(current, pushes + more) == PushAll(PushAll(current, pushes), more)
    decreases pushes
  {
    if pushes == [] {
      assert pushes + more == more;
    } else {
      assert (pushes + more)[1..] == pushes[1..] + more;
      PushAllAppend(Push(current, pushes[0]), pushes[1..], more);
    }
  }

  lemma {:induction false} PushAllSeen(current: Option<Snapshot>, pushes: seq<Option<Snapshot>>)
    ensures PushAll(current, pushes) == current || PushAll(current, pushes) in pushes
    decreases pushes
  {
    hide Keeps;
    if pushes != [] {
      PushAllSeen(Push(current, pushes[0]), pushes[1..]);
      assert pushes == [pushes[0]] + pushes[1..];
    }
  }

  function Higher(a: Standing, b: Standing): Standing {
    if a.AtLeast(b) then a else b
  }

  /** The highest rank among the initial snapshot and all pushes. */
  function TopOf(current: Option<Snapshot>, pushes: seq<Option<Snapshot>>): Standing
    decreases pushes
  {
    if pushes == [] then StandingOf(current) else Higher(StandingOf(pushes[0]), TopOf(current, pushes[1..]))
  }

  /** None of the given standings ranks higher than `top`. */
  ghost predicate Bounds(top: Standing, current: Option<Snapshot>, pushes: seq<Option<Snapshot>>) {
    && top.AtLeast(StandingOf(current))
    && (forall p :: p in pushes ==> top.AtLeast(StandingOf(p)))
  }

  /** ... and `top` is one of them. */
  ghost predicate IsTop(top: Standing, current: Option<Snapshot>, pushes: seq<Option<Snapshot>>) {
    && Bounds(top, current, pushes)
    && (top == StandingOf(current) || exists p :: p in pushes && top == StandingOf(p))
  }

  lemma {:induction false} TopOfIsTop(current: Option<Snapshot>, pushes: seq<Option<Snapshot>>)
    ensures IsTop(TopOf(current, pushes), current, pushes)
    decreases pushes
  {
    hide StandingOf;
    if pushes != [] {
      TopOfIsTop(current, pushes[1..]);
      assert pushes == [pushes[0]] + pushes[1..];
    }
  }

  /** The highest rank can be taken in two stages. */
  lemma TopOfSplit(
      current: Option<Snapshot>, held: Option<Snapshot>, first: seq<Option<Snapshot>>, rest: seq<Option<Snapshot>>)
    requires StandingOf(held) == TopOf(current, first)
    ensures TopOf(held, rest) == TopOf(current, first + rest)
  {
    TopOfIsTop(held, rest);
    TopOfIsTop(current, first);
    TopOfIsTop(current, first + rest);
    hide TopOf, StandingOf;
    var a, b := TopOf(held, rest), TopOf(current, first + rest);
    assert forall p :: p in first + rest <==> p in first || p in rest;
    assert a.AtLeast(b) && b.AtLeast(a);
  }

  lemma TopUnique(
      a: Standing, b: Standing, current: Option<Snapshot>,
      pushes: seq<Option<Snapshot>>, others: seq<Option<Snapshot>>)
    requires IsTop(a, current, pushes) && IsTop(b, current, others)
    requires forall p :: p in pushes <==> p in others
    ensures a == b
  {
    hide StandingOf;
    assert a.AtLeast(b) && b.AtLeast(a);
  }

  /** No undated push carries the baseline flag of the top. (At rank 0 an undated push does no harm.) */
  ghost predicate Harmless(top: Standing, pushes: seq<Option<Snapshot>>) {
    top.ms == 0 || forall p :: p in pushes && !Parses(p) ==> HasActiveBaseline(p) != top.active
  }

  /** Every push with the top's flag has rank 0 within it. */
  ghost predicate NothingToRegain(top: Standing, pushes: seq<Option<Snapshot>>) {
    forall p :: p in pushes && HasActiveBaseline(p) == top.active ==> StandingOf(p).ms == 0
  }

  /** What is said of the pushes below does not depend on their order. */
  lemma Rearranged(
      top: Standing, current: Option<Snapshot>, pushes: seq<Option<Snapshot>>, others: seq<Option<Snapshot>>)
    requires multiset(pushes) == multiset(others)
    ensures IsTop(top, current, pushes) == IsTop(top, current, others)
    ensures Harmless(top, pushes) == Harmless(top, others)
    ensures NothingToRegain(top, pushes) == NothingToRegain(top, others)
    ensures forall p :: p in pushes <==> p in others
  {
    SameMembers(pushes, others);
    hide StandingOf, Parses, HasActiveBaseline;
  }

  lemma SameMembers<T>(s: seq<T>, t: seq<T>)
    requires multiset(s) == multiset(t)
    ensures forall x :: x in s <==> x in t
  {
    assert forall x :: x in multiset(s) <==> x in s;
    assert forall x :: x in multiset(t) <==> x in t;
  }

  lemma TopAfterPush(top: Standing, current: Option<Snapshot>, p: Option<Snapshot>, rest: seq<Option<Snapshot>>)
    requires IsTop(top, current, [p] + rest) && Harmless(top, [p] + rest)
    ensures IsTop(top, Push(current, p), rest)
  {
    var all := [p] + rest;
    PushGateIsRank(current, p);
    assert p in all && forall q :: q in rest ==> q in all;
    hide HasActiveBaseline, GeneratedAtMs, Keeps;
    if top != StandingOf(current) {
      var q :| q in all && top == StandingOf(q);
      assert q == p || q in rest;
    }
  }

  /** A harmless run ends on the top: the snapshot held at the end was seen in the run and none of the
      initial one and the pushed ones ranks higher. */
  lemma {:induction false} HarmlessReachesTop(
      top: Standing, current: Option<Snapshot>, pushes: seq<Option<Snapshot>>)
    requires IsTop(top, current, pushes) && Harmless(top, pushes)
    ensures StandingOf(PushAll(current, pushes)) == top
    decreases pushes
  {
    hide Push, StandingOf;
    if pushes != [] {
      assert pushes == [pushes[0]] + pushes[1..];
      TopAfterPush(top, current, pushes[0], pushes[1..]);
      HarmlessReachesTop(top, Push(current, pushes[0]), pushes[1..]);
    }
  }

  /** An undated push with the flag of the top is accepted whatever is held then. */
  lemma UndatedIsAccepted(top: Standing, held: Option<Snapshot>, u: Option<Snapshot>)
    requires top.AtLeast(StandingOf(held)) && !Parses(u) && HasActiveBaseline(u) == top.active
    ensures Push(held, u) == u && StandingOf(u) == Standing(top.active, 0)
  {
  }

  lemma MoveToEnd<T>(s: seq<T>, i: nat)
    requires i < |s|
    ensures multiset(s[..i] + s[i + 1..] + [s[i]]) == multiset(s)
  {
    assert s == s[..i] + [s[i]] + s[i + 1..];
  }

  /** `others` with the undated push `u` last ends on `u`. */
  lemma DropsAtLast(
      top: Standing, current: Option<Snapshot>, others: seq<Option<Snapshot>>, u: Option<Snapshot>)
    requires Bounds(top, current, others) && !Parses(u) && HasActiveBaseline(u) == top.active
    ensures PushAll(current, others + [u]) == u && StandingOf(u) == Standing(top.active, 0)
  {
    PushAllAppend(current, others, [u]);
    PushAllSeen(current, others);
    var held := PushAll(current, others);
    hide StandingOf, Push;
    UndatedIsAccepted(top, held, u);
    assert [u][1..] == [];
    assert PushAll(Push(held, u), []) == Push(held, u);
  }

  /** In particular arrival order and duplicates do not matter: two harmless runs of the same snapshots
      end with the same rank. */
  lemma PushOrderIrrelevant(current: Option<Snapshot>, pushes: seq<Option<Snapshot>>, others: seq<Option<Snapshot>>)
    requires Harmless(TopOf(current, pushes), pushes)
    requires forall p :: p in pushes <==> p in others
    ensures StandingOf(PushAll(current, pushes)) == StandingOf(PushAll(current, others)) == TopOf(current, pushes)
  {
    hide PushAll, StandingOf, TopOf, Parses, HasActiveBaseline;
    TopOfIsTop(current, pushes);
    TopOfIsTop(current, others);
    TopUnique(TopOf(current, pushes), TopOf(current, others), current, pushes, others);
    HarmlessReachesTop(TopOf(current, pushes), current, pushes);
    HarmlessReachesTop(TopOf(current, others), current, others);
  }

  /** The exact condition for the maximum: every arrangement of the pushes ends on the top if and only
      if no undated push carries the top's baseline flag, or the top is undated itself. */
  lemma EveryOrderReachesTop(current: Option<Snapshot>, pushes: seq<Option<Snapshot>>)
    ensures (forall others :: multiset(others) == multiset(pushes) ==>
               StandingOf(PushAll(current, others)) == TopOf(current, pushes))
       <==> Harmless(TopOf(current, pushes), pushes)
  {
    hide PushAll, TopOf, StandingOf, Parses, HasActiveBaseline;
    var top := TopOf(current, pushes);
    TopOfIsTop(current, pushes);
    if Harmless(top, pushes) {
      forall others | multiset(others) == multiset(pushes)
        ensures StandingOf(PushAll(current, others)) == top
      {
        Rearranged(top, current, pushes, others);
        HarmlessReachesTop(top, current, others);
      }
    } else {
      var u :| u in pushes && !Parses(u) && HasActiveBaseline(u) == top.active;
      var others := UndatedArrangement(top, current, pushes, u);
    }
  }

  /** Some arrangement ends on a given undated push that carries the top's flag. */
  lemma UndatedArrangement(
      top: Standing, current: Option<Snapshot>, pushes: seq<Option<Snapshot>>, u: Option<Snapshot>)
    returns (others: seq<Option<Snapshot>>)
    requires IsTop(top, current, pushes)
    requires u in pushes && !Parses(u) && HasActiveBaseline(u) == top.active
    ensures multiset(others) == multiset(pushes)
    ensures StandingOf(PushAll(current, others)) == Standing(top.active, 0)
  {
    hide PushAll, StandingOf, Parses, HasActiveBaseline;
    var i :| 0 <= i < |pushes| && pushes[i] == u;
    MoveToEnd(pushes, i);
    others := pushes[..i] + pushes[i + 1..] + [u];
    DropsAtLast(top, current, pushes[..i] + pushes[i + 1..], u);
  }

  /** Some arrangement ends on a given dated push, right after an undated one of the same flag. */
  lemma RegainingArrangement(
      top: Standing, current: Option<Snapshot>, pushes: seq<Option<Snapshot>>, u: Option<Snapshot>, p: Option<Snapshot>)
    returns (others: seq<Option<Snapshot>>)
    requires IsTop(top, current, pushes) && u in pushes && p in pushes
    requires !Parses(u) && StandingOf(p).ms != 0 && HasActiveBaseline(u) == HasActiveBaseline(p) == top.active
    ensures multiset(others) == multiset(pushes)
    ensures PushAll(current, others) == p
  {
    assert u != p;
    hide PushAll, StandingOf, Parses, HasActiveBaseline;
    var rest := MoveTwoToEnd(pushes, u, p);
    others := rest + [u] + [p];
    SameMembers(pushes, others);
    assert forall q :: q in rest ==> q in others;
    DatedAfterUndated(top, current, rest, u, p);
  }

  /** A dated push that follows directly on an undated one of the same flag is accepted. */
  lemma DatedAfterUndated(
      top: Standing, current: Option<Snapshot>, others: seq<Option<Snapshot>>, u: Option<Snapshot>, p: Option<Snapshot>)
    requires Bounds(top, current, others) && !Parses(u)
    requires HasActiveBaseline(u) == HasActiveBaseline(p) == top.active
    ensures PushAll(current, others + [u] + [p]) == p
  {
    var before := others + [u];
    PushAllAppend(current, others, [u]);
    PushAllAppend(current, before, [p]);
    PushAllSeen(current, others);
    var held := PushAll(current, others);
    assert top.AtLeast(StandingOf(held));
    UndatedIsAccepted(top, held, u);
    assert [u][1..] == [] && [p][1..] == [];
    assert PushAll(Push(held, u), []) == u;
    assert Push(u, p) == p;
  }

  /** Two pushes at different places can be moved to the end. */
  lemma MoveTwoToEnd<T>(s: seq<T>, x: T, y: T) returns (rest: seq<T>)
    requires x in s && y in s && x != y
    ensures multiset(rest + [x] + [y]) == multiset(s)
  {
    var i :| 0 <= i < |s| && s[i] == x;
    MoveToEnd(s, i);
    var t := s[..i] + s[i + 1..];
    assert y in t by {
      SameMembers(t + [x], s);
    }
    var j :| 0 <= j < |t| && t[j] == y;
    MoveToEnd(t, j);
    rest := t[..j] + t[j + 1..];
    assert multiset(rest + [x] + [y]) == multiset(rest + [y]) + multiset([x]);
  }

  /** Nothing regains a lost rank: from rank 0 with the top's flag the run stays there. */
  lemma {:induction false} StaysAtZero(top: Standing, held: Option<Snapshot>, pushes: seq<Option<Snapshot>>)
    requires StandingOf(held) == Standing(top.active, 0) && NothingToRegain(top, pushes)
    requires forall p :: p in pushes ==> top.AtLeast(StandingOf(p))
    ensures StandingOf(PushAll(held, pushes)) == Standing(top.active, 0)
    decreases pushes
  {
    if pushes != [] {
      assert pushes == [pushes[0]] + pushes[1..];
      assert top.AtLeast(StandingOf(pushes[0]));
      assert HasActiveBaseline(pushes[0]) == top.active ==> StandingOf(pushes[0]).ms == 0;
      assert StandingOf(Push(held, pushes[0])) == Standing(top.active, 0);
      hide Push, StandingOf, HasActiveBaseline;
      StaysAtZero(top, Push(held, pushes[0]), pushes[1..]);
    }
  }

  lemma LostForGood(top: Standing, current: Option<Snapshot>, pushes: seq<Option<Snapshot>>, u: Option<Snapshot>)
    requires IsTop(top, current, pushes) && NothingToRegain(top, pushes)
    requires u in pushes && !Parses(u) && HasActiveBaseline(u) == top.active
    ensures StandingOf(PushAll(current, pushes)) == Standing(top.active, 0)
  {
    hide PushAll, StandingOf, Parses, HasActiveBaseline;
    var i :| 0 <= i < |pushes| && pushes[i] == u;
    var before, after := pushes[..i], pushes[i + 1..];
    assert pushes == (before + [u]) + after;
    PushAllAppend(current, before + [u], after);
    DropsAtLast(top, current, before, u);
    assert forall p :: p in after ==> p in pushes;
    StaysAtZero(top, u, after);
  }

  /** The exact condition for order independence: all arrangements of the pushes end with the same
      rank if and only if they all reach the top, or no push with the top's flag has a rank to regain
      after an undated one. */
  lemma OrderIrrelevantExactly(current: Option<Snapshot>, pushes: seq<Option<Snapshot>>)
    ensures (forall others :: multiset(others) == multiset(pushes) ==>
               StandingOf(PushAll(current, others)) == StandingOf(PushAll(current, pushes)))
       <==> Harmless(TopOf(current, pushes), pushes) || NothingToRegain(TopOf(current, pushes), pushes)
  {
    hide PushAll, TopOf, StandingOf, Parses, HasActiveBaseline;
    var top := TopOf(current, pushes);
    TopOfIsTop(current, pushes);
    EveryOrderReachesTop(current, pushes);
    if !Harmless(top, pushes) {
      var u :| u in pushes && !Parses(u) && HasActiveBaseline(u) == top.active;
      if NothingToRegain(top, pushes) {
        forall others | multiset(others) == multiset(pushes)
          ensures StandingOf(PushAll(current, others)) == Standing(top.active, 0)
        {
          Rearranged(top, current, pushes, others);
          LostForGood(top, current, others, u);
        }
        assert StandingOf(PushAll(current, pushes)) == Standing(top.active, 0);
      } else {
        var p :| p in pushes && HasActiveBaseline(p) == top.active && StandingOf(p).ms != 0;
        var first := UndatedArrangement(top, current, pushes, u);
        var second := RegainingArrangement(top, current, pushes, u, p);
      }
    }
  }

  /** An example: a dated and an undated push, in either order. */
  lemma OrderMatters()
    ensures exists a: Option<Snapshot>, b: Option<Snapshot> ::
      StandingOf(PushAll(None, [a, b])) != StandingOf(PushAll(None, [b, a]))
  {
    var dated := Some(Snapshot(At(1), None, None, None, None, false));
    var undated := Some(Snapshot(Unparseable, None, None, None, None, false));
    assert PushAll(None, [dated, undated]) == undated by {
      assert [dated, undated][1..] == [undated] && [undated][1..] == [];
      assert PushAll(dated, [undated]) == PushAll(Push(dated, undated), []) == undated;
    }
    assert PushAll(None, [undated, dated]) == dated by {
      assert [undated, dated][1..] == [dated] && [dated][1..] == [];
      assert PushAll(undated, [dated]) == PushAll(Push(undated, dated), []) == dated;
    }
    assert StandingOf(dated).ms == 1 && StandingOf(undated).ms == 0;
  }

  // ----- climbing -----

  /** The rank never falls along the run. */
  ghost predicate Climbs(current: Option<Snapshot>, pushes: seq<Option<Snapshot>>)
    decreases pushes
  {
    pushes == [] ||
      (&& StandingOf(Push(current, pushes[0])).AtLeast(StandingOf(current))
       && Climbs(Push(current, pushes[0]), pushes[1..]))
  }

  ghost predicate SlipsSomewhere(current: Option<Snapshot>, pushes: seq<Option<Snapshot>>)
    decreases pushes
  {
    pushes != [] && (SlipsThrough(current, pushes[0]) || SlipsSomewhere(Push(current, pushes[0]), pushes[1..]))
  }

  /** For every run, dated or not: the rank falls at some step exactly when some push slips through. */
  lemma {:induction false} ClimbsExactly(current: Option<Snapshot>, pushes: seq<Option<Snapshot>>)
    ensures Climbs(current, pushes) <==> !SlipsSomewhere(current, pushes)
    decreases pushes
  {
    if pushes != [] {
      PushGateIsRank(current, pushes[0]);
      ClimbsExactly(Push(current, pushes[0]), pushes[1..]);
    }
  }
}

/** The movements drawn on the map against the raw observations (dashboard/public/mindmap.jsx): which
    observation wins its key, and when something newer than what is drawn is left out. */
module MovementLaws {
  import opened Prelude
  import opened Sorting
  import opened Movements

  // ----- which observation wins its key -----

  /** Observation `i` is eligible, newer than every earlier eligible one of its key, and no later one of
      its key is newer. */
  ghost predicate WinsAt(ms: seq<Movement>, i: nat, now: int) {
    && i < |ms| && Eligible(ms[i], now)
    && (forall j :: 0 <= j < |ms| && Eligible(ms[j], now) && KeyOf(ms[j]) == KeyOf(ms[i]) ==>
          if j < i then Newer(ms[i], ms[j]) else !Newer(ms[j], ms[i]))
  }

  /** `m` is the first newest eligible observation of its key. */
  ghost predicate Wins(m: Movement, ms: seq<Movement>, now: int) {
    exists i: nat :: WinsAt(ms, i, now) && ms[i] == m
  }

  lemma WinnerKept(before: seq<Movement>, last: Movement, i: nat, now: int)
    requires WinsAt(before, i, now)
    requires Eligible(last, now) && KeyOf(last) == KeyOf(before[i]) ==> !Newer(last, before[i])
    ensures Wins(before[i], before + [last], now)
  {
    hide KeyOf, Eligible, Newer;
    var ms := before + [last];
    assert forall j :: 0 <= j < |before| ==> ms[j] == before[j];
    assert ms[|before|] == last;
    assert WinsAt(ms, i, now);
  }

  /** A last observation newer than the winner so far, or the first of its key, wins. */
  lemma LastWins(before: seq<Movement>, last: Movement, now: int)
    requires Eligible(last, now)
    requires forall x :: x in before && Eligible(x, now) && KeyOf(x) == KeyOf(last) ==> Newer(last, x)
    ensures Wins(last, before + [last], now)
  {
    hide KeyOf;
    var ms := before + [last];
    assert forall j :: 0 <= j < |before| ==> ms[j] == before[j] && before[j] in before;
    assert WinsAt(ms, |before|, now);
  }

  lemma EligibleAppend(before: seq<Movement>, last: Movement, now: int)
    ensures EligibleOf(before + [last], now)
         == EligibleOf(before, now) + if Eligible(last, now) then [last] else []
  {
    FilterAppend(before, [last], (m: Movement) => Eligible(m, now));
    assert [last][1..] == [];
  }

  /** One more observation: every entry of the table stays a winner. */
  lemma OfferWins(before: seq<Movement>, last: Movement, now: int, key: string)
    requires Eligible(last, now)
    requires var t := TableOf(EligibleOf(before, now));
      && (key in t.entries ==> Wins(t.entries[key], before, now) && KeyOf(t.entries[key]) == key)
      && (forall x :: x in before && Eligible(x, now) ==> KeyOf(x) in t.entries)
      && key in Offer(t, last).entries
    ensures Wins(Offer(TableOf(EligibleOf(before, now)), last).entries[key], before + [last], now)
  {
    hide KeyOf, TableOf;
    var t := TableOf(EligibleOf(before, now));
    if key in t.entries {
      var i: nat :| WinsAt(before, i, now) && before[i] == t.entries[key];
      if key == KeyOf(last) && Newer(last, t.entries[key]) {
        forall x | x in before && Eligible(x, now) && KeyOf(x) == KeyOf(last)
          ensures Newer(last, x)
        {
          var j :| 0 <= j < |before| && before[j] == x;
        }
        LastWins(before, last, now);
      } else {
        WinnerKept(before, last, i, now);
      }
    } else {
      LastWins(before, last, now);
    }
  }

  lemma {:induction false} TableWins(ms: seq<Movement>, now: int)
    ensures forall key :: key in TableOf(EligibleOf(ms, now)).entries ==>
      Wins(TableOf(EligibleOf(ms, now)).entries[key], ms, now)
  {
    hide KeyOf, Eligible, Newer, Wins, EligibleOf;
    if ms == [] {
      NothingEligible(now);
    } else {
      var before, last := ms[..|ms| - 1], ms[|ms| - 1];
      var es := EligibleOf(before, now);
      assert ms == before + [last];
      TableWins(before, now);
      TableNewest(es);
      TableWellFormed(es);
      EligibleAppend(before, last, now);
      if Eligible(last, now) {
        assert (es + [last])[..|es|] == es;
        assert TableOf(es + [last]) == Offer(TableOf(es), last);
        forall key | key in Offer(TableOf(es), last).entries
          ensures Wins(Offer(TableOf(es), last).entries[key], ms, now)
        {
          OfferWins(before, last, now, key);
        }
      } else {
        assert es + [] == es;
        forall key | key in TableOf(es).entries
          ensures Wins(TableOf(es).entries[key], ms, now)
        {
          StillWins(before, last, TableOf(es).entries[key], now);
        }
      }
    }
  }

  lemma NothingEligible(now: int)
    ensures EligibleOf([], now) == []
  {
  }

  lemma StillWins(before: seq<Movement>, last: Movement, m: Movement, now: int)
    requires Wins(m, before, now) && !Eligible(last, now)
    ensures Wins(m, before + [last], now)
  {
    var i: nat :| WinsAt(before, i, now) && before[i] == m;
    WinnerKept(before, last, i, now);
  }

  /** A key has one winner at most. */
  lemma OneWinner(m: Movement, w: Movement, ms: seq<Movement>, now: int)
    requires Wins(m, ms, now) && Wins(w, ms, now) && KeyOf(m) == KeyOf(w)
    ensures m == w
  {
    hide KeyOf, Eligible, Newer;
    var i: nat :| WinsAt(ms, i, now) && ms[i] == m;
    var j: nat :| WinsAt(ms, j, now) && ms[j] == w;
    assert i < j ==> Newer(w, m) && !Newer(w, m);
    assert j < i ==> Newer(m, w) && !Newer(m, w);
  }

  /** The deduplicated list holds exactly the winners. */
  lemma RecentExactly(ms: seq<Movement>, now: int, m: Movement)
    ensures m in Recent(ms, now) <==> Wins(m, ms, now)
  {
    var es := EligibleOf(ms, now);
    TableWins(ms, now);
    DedupeNewest(es);
    TableWellFormed(es);
    RecentAreDeduped(ms, now);
    hide KeyOf, Recent, Newer, Eligible;
    var t := TableOf(es);
    assert forall w :: w in Dedupe(es) ==> exists key :: key in t.entries && t.entries[key] == w by {
      forall w | w in Dedupe(es)
        ensures exists key :: key in t.entries && t.entries[key] == w
      {
        var k :| 0 <= k < |t.order| && Dedupe(es)[k] == w;
        assert t.order[k] in t.order;
        assert t.entries[t.order[k]] == w;
      }
    }
    if Wins(m, ms, now) {
      assert m in es by { var i: nat :| WinsAt(ms, i, now) && ms[i] == m; }
      var w :| w in Dedupe(es) && KeyOf(w) == KeyOf(m);
      OneWinner(m, w, ms, now);
    }
  }

  /** A movement is visible exactly when it passes the filters and is the first newest eligible
      observation of its key. */
  lemma VisibleExactly(ms: seq<Movement>, now: int, selected: Option<string>, lower: string -> string, m: Movement)
    ensures m in Visible(ms, now, selected, lower) <==> Wins(m, ms, now) && Passes(m, selected, lower)
  {
    RecentExactly(ms, now, m);
    hide Recent, Wins, Passes;
  }

  /** The winners that pass, straight from the observations. */
  ghost function Winners(
      ms: seq<Movement>, now: int, selected: Option<string>, lower: string -> string): set<Movement>
  {
    set m | m in ms && Wins(m, ms, now) && Passes(m, selected, lower)
  }

  /** ... and those of them that are at least as new as `x`. */
  ghost function AsNew(
      ms: seq<Movement>, now: int, selected: Option<string>, lower: string -> string, x: Movement): set<Movement>
  {
    set m | m in Winners(ms, now, selected, lower) && !Newer(x, m)
  }

  /** Without repetitions, filtering keeps as many as there are members that pass. */
  lemma {:induction false} FilterSize<T(!new)>(s: seq<T>, keep: T -> bool, members: set<T>)
    requires Distinct(s) && forall x :: x in members <==> x in s && keep(x)
    ensures |Filter(s, keep)| == |members|
  {
    if s == [] {
      assert members == {};
    } else {
      assert s == [s[0]] + s[1..];
      assert s[0] !in s[1..];
      FilterSize(s[1..], keep, members - {s[0]});
    }
  }

  function NotOlder(x: Movement): Movement -> bool {
    m => !Newer(x, m)
  }

  lemma VisibleWinners(ms: seq<Movement>, now: int, selected: Option<string>, lower: string -> string)
    ensures forall m :: m in Visible(ms, now, selected, lower) <==> m in Winners(ms, now, selected, lower)
    ensures Distinct(Visible(ms, now, selected, lower))
    ensures |Visible(ms, now, selected, lower)| == |Winners(ms, now, selected, lower)|
  {
    SeedsOrdered(ms, now, selected, lower);
    hide Visible, Passes, KeyOf;
    var all, winners := Visible(ms, now, selected, lower), Winners(ms, now, selected, lower);
    forall m
      ensures m in all <==> m in winners
    {
      VisibleExactly(ms, now, selected, lower, m);
    }
    hide Wins;
    var keep := (m: Movement) => true;
    FilterSize(all, keep, winners);
    FilterFull(all, keep);
  }

  // ----- what the cut leaves out -----

  ghost predicate Represented(x: Movement, seeds: seq<Movement>) {
    exists r :: r in seeds && KeyOf(r) == KeyOf(x) && !Newer(x, r)
  }

  /** No passing observation newer than a seed is left without a seed of its own key. */
  ghost predicate NothingNewerLeftOut(ms: seq<Movement>, now: int, selected: Option<string>, lower: string -> string) {
    forall x, m :: x in ms && Eligible(x, now) && Passes(x, selected, lower)
        && m in Seeds(ms, now, selected, lower) && Newer(x, m)
      ==> Represented(x, Seeds(ms, now, selected, lower))
  }

  /** The deduplication, which runs before the filters, replaced `x` by an observation of its key that
      does not pass. */
  ghost predicate Hidden(
      x: Movement, ms: seq<Movement>, now: int, selected: Option<string>, lower: string -> string)
  {
    exists w :: w in ms && Wins(w, ms, now) && KeyOf(w) == KeyOf(x) && !Passes(w, selected, lower)
  }

  lemma OlderFrom(all: seq<Movement>, i: nat, x: Movement, m: Movement)
    requires Sorted(all, NewestFirst) && i < |all| && Newer(x, all[i])
    requires m in all[i..] && m.observedMs.Some?
    ensures Newer(x, m)
  {
    var j :| 0 <= j < |all[i..]| && all[i..][j] == m;
    assert j > 0 ==> !NewestFirst(all[i + j], all[i]);
  }

  /** How many movements of a newest-first list are at least as new as `x` says how long its prefix of
      such movements is. */
  lemma AsNewPrefix(all: seq<Movement>, n: nat, x: Movement)
    requires Sorted(all, NewestFirst) && n <= |all| && (forall m :: m in all ==> m.observedMs.Some?)
    ensures (forall m :: m in all[..n] ==> !Newer(x, m)) <==> |Filter(all, NotOlder(x))| >= n
  {
    hide Newer, NewestFirst, Sorted;
    var keep := NotOlder(x);
    if forall m :: m in all[..n] ==> !Newer(x, m) {
      assert all == all[..n] + all[n..];
      FilterAppend(all[..n], all[n..], keep);
      FilterFull(all[..n], keep);
    } else {
      var i :| 0 <= i < n && Newer(x, all[i]);
      forall m | m in all[i..]
        ensures !keep(m)
      {
        OlderFrom(all, i, x, m);
      }
      assert all == all[..i] + all[i..];
      FilterAppend(all[..i], all[i..], keep);
      FilterNone(all[i..], keep);
    }
  }

  /** Every seed is at least as new as `x` exactly when enough winners are. */
  lemma SeedsAsNew(ms: seq<Movement>, now: int, selected: Option<string>, lower: string -> string, x: Movement)
    ensures (forall m :: m in Seeds(ms, now, selected, lower) ==> !Newer(x, m))
       <==> |AsNew(ms, now, selected, lower, x)| >= |Seeds(ms, now, selected, lower)|
  {
    var all, seeds := Visible(ms, now, selected, lower), Seeds(ms, now, selected, lower);
    SeedsOrdered(ms, now, selected, lower);
    VisibleDated(ms, now, selected, lower);
    VisibleWinners(ms, now, selected, lower);
    hide Visible, Seeds, Winners, KeyOf, Newer;
    assert seeds == all[..|seeds|];
    AsNewPrefix(all, |seeds|, x);
    FilterSize(all, NotOlder(x), AsNew(ms, now, selected, lower, x));
  }

  /** The winner of an observation's key. */
  lemma WinnerOf(ms: seq<Movement>, now: int, x: Movement) returns (w: Movement)
    requires x in ms && Eligible(x, now)
    ensures w in ms && Wins(w, ms, now) && KeyOf(w) == KeyOf(x) && !Newer(x, w)
  {
    w := EligibleRepresented(ms, now, None, s => s, x);
    RecentExactly(ms, now, w);
  }

  /** An observation that is not hidden has nothing to fear from the cut. */
  lemma UnhiddenIsRepresented(
      ms: seq<Movement>, now: int, selected: Option<string>, lower: string -> string, x: Movement, m: Movement)
    requires x in ms && Eligible(x, now) && !Hidden(x, ms, now, selected, lower)
    requires m in Seeds(ms, now, selected, lower) && Newer(x, m)
    ensures Represented(x, Seeds(ms, now, selected, lower))
  {
    var w := WinnerOf(ms, now, x);
    VisibleExactly(ms, now, selected, lower, w);
    VisibleDated(ms, now, selected, lower);
    SeedsOrdered(ms, now, selected, lower);
    hide Visible, KeyOf, Passes, Eligible, Wins;
    var all, seeds := Visible(ms, now, selected, lower), Seeds(ms, now, selected, lower);
    assert seeds == all[..|seeds|];
    CutOrder(all, |seeds|, m, w);
  }

  lemma HiddenIsUnrepresented(
      ms: seq<Movement>, now: int, selected: Option<string>, lower: string -> string, x: Movement)
    requires Hidden(x, ms, now, selected, lower)
    ensures !Represented(x, Seeds(ms, now, selected, lower))
  {
    hide KeyOf, Passes, Visible, Newer, Wins;
    var seeds := Seeds(ms, now, selected, lower);
    var w :| w in ms && Wins(w, ms, now) && KeyOf(w) == KeyOf(x) && !Passes(w, selected, lower);
    forall r | r in seeds
      ensures KeyOf(r) != KeyOf(x)
    {
      assert r in Visible(ms, now, selected, lower);
      VisibleExactly(ms, now, selected, lower, r);
      if KeyOf(r) == KeyOf(w) {
        OneWinner(r, w, ms, now);
      }
    }
  }

  /** Exactly when nothing newer is left out, in terms of the observations alone: every passing one that
      is hidden has as many winners at least as new as it as are drawn, which is all of them or the
      cap. */
  lemma LeftOutExactly(ms: seq<Movement>, now: int, selected: Option<string>, lower: string -> string)
    ensures NothingNewerLeftOut(ms, now, selected, lower) <==>
      forall x :: x in ms && Eligible(x, now) && Passes(x, selected, lower) && Hidden(x, ms, now, selected, lower)
        ==> |AsNew(ms, now, selected, lower, x)| >= Cut(|Winners(ms, now, selected, lower)|, Cap(selected))
  {
    var seeds := Seeds(ms, now, selected, lower);
    SeedsOrdered(ms, now, selected, lower);
    VisibleWinners(ms, now, selected, lower);
    hide Visible, Seeds, KeyOf, Passes, Eligible, Newer, Hidden, Represented, AsNew, Winners, Cap;
    forall x | x in ms && Eligible(x, now) && Passes(x, selected, lower)
      ensures (forall m :: m in seeds && Newer(x, m) ==> Represented(x, seeds))
         <==> (Hidden(x, ms, now, selected, lower) ==> |AsNew(ms, now, selected, lower, x)| >= |seeds|)
    {
      if Hidden(x, ms, now, selected, lower) {
        HiddenIsUnrepresented(ms, now, selected, lower, x);
        SeedsAsNew(ms, now, selected, lower, x);
      } else {
        forall m | m in seeds && Newer(x, m)
          ensures Represented(x, seeds)
        {
          UnhiddenIsRepresented(ms, now, selected, lower, x, m);
        }
      }
    }
  }

  function Cut(n: nat, cap: nat): nat {
    if n < cap then n else cap
  }

  /** In particular nothing newer is left out when the eligible observations of each key agree on
      the filters. */
  lemma AgreementLeavesNothingOut(ms: seq<Movement>, now: int, selected: Option<string>, lower: string -> string)
    requires forall x, y ::
      x in ms && y in ms && Eligible(x, now) && Eligible(y, now) && KeyOf(x) == KeyOf(y)
      ==> Passes(x, selected, lower) == Passes(y, selected, lower)
    ensures NothingNewerLeftOut(ms, now, selected, lower)
  {
    LeftOutExactly(ms, now, selected, lower);
    forall x | x in ms && Eligible(x, now) && Passes(x, selected, lower)
      ensures !Hidden(x, ms, now, selected, lower)
    {
      hide KeyOf, Passes, Eligible, Newer, NothingNewerLeftOut;
      assert forall w :: w in ms && Wins(w, ms, now) ==> Eligible(w, now);
    }
  }

  /** An input on which something newer is left out: `x` uses the gateway, but a newer observation of
      its key does not, so an older movement is drawn and `x` is not. */
  lemma HiddenObservation(lower: string -> string) returns (ms: seq<Movement>)
    ensures !NothingNewerLeftOut(ms, 100, None, lower)
  {
    hide KeyOf, Visible, Recent;
    var x, y, z := Sample("r1", "base", true, 60), Sample("r1", "base", false, 70), Sample("r2", "base", true, 50);
    ms := [x, y, z];
    forall p, q | p in ms && q in ms {
      SampleKeys(p, q);
    }
    SoleIsVisible(ms, 100, None, lower, z);
    forall m | m in Visible(ms, 100, None, lower)
      ensures m == z
    {
      VisibleAreNewest(ms, 100, None, lower, m);
    }
    SeedsOrdered(ms, 100, None, lower);
    var all, seeds := Visible(ms, 100, None, lower), Seeds(ms, 100, None, lower);
    assert seeds == all[..|seeds|];
    assert forall m :: m in seeds ==> m in all;
    assert seeds[0] in seeds && seeds[0] == z;
    assert x in ms && Passes(x, None, lower) && z in seeds && Newer(x, z);
    assert !Represented(x, seeds);
  }
}

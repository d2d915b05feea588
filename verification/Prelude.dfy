/** Shared vocabulary: optional values and the comparisons of reals the dashboard uses. */
module Prelude {

  /** A JavaScript value that may be missing. For numbers, `None` also stands for a value
      that `Number.isFinite` rejects. */
  datatype Option<+T> = None | Some(value: T) {
    function GetOr(default: T): T {
      if Some? then value else default
    }
  }

  /** The first of several values that is there. */
  function First<T>(options: seq<Option<T>>): Option<T> {
    if options == [] then None else if options[0].Some? then options[0] else First(options[1..])
  }

  lemma FirstOfTwo<T>(a: Option<T>, b: Option<T>)
    ensures First([a, b]) == if a.Some? then a else b
  {
    assert [a, b][1..] == [b] && [b][1..] == [];
    assert First([b]) == if b.Some? then b else First([]);
  }

  lemma FirstOfThree<T>(a: Option<T>, b: Option<T>, c: Option<T>)
    ensures First([a, b, c]) == if a.Some? then a else First([b, c])
  {
    assert [a, b, c][1..] == [b, c];
  }

  lemma FirstOfFour<T>(a: Option<T>, b: Option<T>, c: Option<T>, d: Option<T>)
    ensures First([a, b, c, d]) == if a.Some? then a else First([b, c, d])
  {
    assert [a, b, c, d][1..] == [b, c, d];
  }

  function Min(a: real, b: real): real {
    if a <= b then a else b
  }

  function Max(a: real, b: real): real {
    if a <= b then b else a
  }

  function Abs(a: real): real {
    if a < 0.0 then -a else a
  }

  /** `clamp` as the dashboard writes it: the lower bound wins when the bounds cross. */
  function Clamp(value: real, low: real, high: real): real {
    Max(low, Min(high, value))
  }

  /** A finite number above zero. */
  predicate Positive(value: Option<real>) {
    value.Some? && value.value > 0.0
  }

  /** `first || second` on strings, where the empty string also stands for a missing one. */
  function OrElse(first: string, second: string): string {
    if first != "" then first else second
  }

  /** `capitalProtocolKey`: no key when a part is missing. */
  function ProtocolKey(chain: string, protocol: string): Option<string> {
    if chain == "" || protocol == "" then None else Some(chain + ":" + protocol)
  }

  predicate OccursAt(s: string, t: string, i: nat) {
    i + |s| <= |t| && t[i..i + |s|] == s
  }

  /** `t.includes(s)`. */
  predicate IsSubstring(s: string, t: string) {
    exists i: nat :: i <= |t| && OccursAt(s, t, i)
  }

  datatype Point = Point(x: real, y: real)

  /** No element occurs twice. */
  ghost predicate Distinct<T>(s: seq<T>) {
    forall i, j :: 0 <= i < j < |s| ==> s[i] != s[j]
  }

  /** `Array.prototype.filter`. */
  function Filter<T(!new)>(s: seq<T>, keep: T -> bool): (r: seq<T>)
    ensures forall x :: x in r <==> x in s && keep(x)
    ensures |r| <= |s|
  {
    if s == [] then []
    else if keep(s[0]) then [s[0]] + Filter(s[1..], keep)
    else Filter(s[1..], keep)
  }

  lemma {:induction false} FilterAppend<T(!new)>(s: seq<T>, t: seq<T>, keep: T -> bool)
    ensures Filter(s + t, keep) == Filter(s, keep) + Filter(t, keep)
  {
    if s == [] {
      assert s + t == t;
    } else {
      assert (s + t)[1..] == s[1..] + t;
      FilterAppend(s[1..], t, keep);
    }
  }

  lemma {:induction false} FilterTwice<T(!new)>(s: seq<T>, keep: T -> bool, also: T -> bool, both: T -> bool)
    requires forall x :: both(x) <==> keep(x) && also(x)
    ensures Filter(Filter(s, keep), also) == Filter(s, both)
  {
    if s != [] {
      FilterTwice(s[1..], keep, also, both);
    }
  }

  lemma {:induction false} FilterCount<T(!new)>(s: seq<T>, keep: T -> bool, x: T)
    ensures multiset(Filter(s, keep))[x] == if keep(x) then multiset(s)[x] else 0
  {
    if s != [] {
      assert s == [s[0]] + s[1..];
      FilterCount(s[1..], keep, x);
    }
  }

  lemma {:induction false} FilterFull<T(!new)>(s: seq<T>, keep: T -> bool)
    ensures |Filter(s, keep)| == |s| <==> forall x :: x in s ==> keep(x)
  {
    if s != [] {
      FilterFull(s[1..], keep);
      assert s == [s[0]] + s[1..];
    }
  }

  lemma {:induction false} FilterNone<T(!new)>(s: seq<T>, keep: T -> bool)
    requires forall x :: x in s ==> !keep(x)
    ensures Filter(s, keep) == []
  {
    if s != [] {
      FilterNone(s[1..], keep);
    }
  }

  lemma {:induction false} FilterAlike<T(!new)>(s: seq<T>, keep: T -> bool, alike: T -> bool)
    requires forall x :: x in s ==> keep(x) == alike(x)
    ensures Filter(s, keep) == Filter(s, alike)
  {
    if s != [] {
      FilterAlike(s[1..], keep, alike);
      assert s[0] in s;
    }
  }

  /** Filtering commutes with reordering. */
  lemma FilterPermutation<T(!new)>(s: seq<T>, t: seq<T>, keep: T -> bool)
    requires multiset(s) == multiset(t)
    ensures multiset(Filter(s, keep)) == multiset(Filter(t, keep))
  {
    forall x
      ensures multiset(Filter(s, keep))[x] == multiset(Filter(t, keep))[x]
    {
      FilterCount(s, keep, x);
      FilterCount(t, keep, x);
    }
  }

  // ----- products -----

  lemma NonnegProduct(a: real, b: real)
    requires a >= 0.0 && b >= 0.0
    ensures a * b >= 0.0
  {
  }

  lemma PositiveProduct(a: real, b: real)
    requires a > 0.0 && b > 0.0
    ensures a * b > 0.0
  {
  }

  lemma MulMonotone(r: real, a: real, b: real)
    requires r >= 0.0 && a <= b
    ensures r * a <= r * b
  {
  }

  lemma MulSame(r: real, a: real, b: real)
    requires a == b
    ensures r * a == r * b
  {
  }

  lemma MulOrder(r: real, a: real, b: real)
    requires r > 0.0
    ensures r * a <= r * b <==> a <= b
  {
    if a > b {
      PositiveProduct(r, a - b);
      assert r * (a - b) == r * a - r * b;
    }
  }

  lemma QuotientTimes(a: real, w: real)
    requires w != 0.0
    ensures w * (a / w) == a
  {
  }

  lemma QuotientNonneg(a: real, w: real)
    requires a >= 0.0 && w > 0.0
    ensures a / w >= 0.0
  {
  }

  lemma SquareNonneg(a: real)
    ensures a * a >= 0.0
  {
  }

  lemma SquareZero(a: real)
    ensures a * a == 0.0 <==> a == 0.0
  {
    if a * a == 0.0 {
      assert (-a) * (-a) == a * a;
      RootsGrow(a, 0.0);
      RootsGrow(-a, 0.0);
    }
  }

  lemma SquaresGrow(a: real, b: real)
    requires 0.0 <= a <= b
    ensures a * a <= b * b
  {
    MulMonotone(a, a, b);
    MulMonotone(b, a, b);
  }

  lemma StrictSquaresGrow(a: real, b: real)
    requires 0.0 <= a < b
    ensures a * a < b * b
  {
    PositiveProduct(b - a, b + a);
    assert (b - a) * (b + a) == b * b - a * a;
  }

  /** Of two numbers that are not negative, the one with the larger square is the larger. */
  lemma RootsGrow(a: real, b: real)
    requires b >= 0.0 && a * a <= b * b
    ensures a <= b
  {
    if b < a {
      StrictSquaresGrow(b, a);
    }
  }
}

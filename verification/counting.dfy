/**
 * Counting by position: how many entries of a sequence satisfy a test,
 * stated as the size of the set of their indices, so that a recursive
 * count can be checked against a definition that does not recurse.
 */
module Counting {

  /** The indices of `s` whose entry passes `p`. */
  function Positions<T>(s: seq<T>, p: T -> bool): set<int> {
    set i | 0 <= i < |s| && p(s[i])
  }

  /** Appending one entry adds its index exactly when it passes. */
  lemma PositionsSnoc<T>(s: seq<T>, y: T, p: T -> bool)
    ensures |Positions(s + [y], p)| == |Positions(s, p)| + (if p(y) then 1 else 0)
  {
    var t := s + [y];
    var extra: set<int> := if p(y) then {|s|} else {};
    assert forall i :: 0 <= i < |s| ==> t[i] == s[i];
    assert Positions(t, p) == Positions(s, p) + extra;
    assert Positions(s, p) !! extra;
  }

  /** Prepending one entry adds one to the count exactly when it passes. */
  lemma {:induction false} PositionsPrepend<T>(x: T, s: seq<T>, p: T -> bool)
    ensures |Positions([x] + s, p)| == (if p(x) then 1 else 0) + |Positions(s, p)|
    decreases |s|
  {
    if s == [] {
      assert [x] + s == [] + [x];
      PositionsSnoc([], x, p);
    } else {
      var init := s[..|s| - 1];
      var y := s[|s| - 1];
      assert s == init + [y];
      assert [x] + s == ([x] + init) + [y];
      PositionsPrepend(x, init, p);
      PositionsSnoc([x] + init, y, p);
      PositionsSnoc(init, y, p);
    }
  }
}

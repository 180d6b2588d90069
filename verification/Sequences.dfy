/** Facts about sequences shared by the poller, the aggregator and the end-to-end proof. */
module Sequences {

  datatype Option<+T> = None | Some(value: T)

  function Last<T>(s: seq<T>): T
    requires s != []
  {
    s[|s| - 1]
  }

  /** `s` with consecutive repeats removed. */
  function Destutter<T(==)>(s: seq<T>): (r: seq<T>)
    ensures |r| <= |s|
    ensures s == [] <==> r == []
    ensures s != [] ==> r[0] == s[0] && Last(r) == Last(s)
  {
    if |s| <= 1 then s
    else if s[|s| - 2] == Last(s) then Destutter(s[..|s| - 1])
    else Destutter(s[..|s| - 1]) + [Last(s)]
  }

  lemma DestutterSnoc<T>(s: seq<T>, x: T)
    ensures Destutter(s + [x]) ==
            if s != [] && Last(s) == x then Destutter(s) else Destutter(s) + [x]
  {
    assert (s + [x])[..|s|] == s;
    assert s != [] ==> (s + [x])[|s| - 1] == Last(s);
  }

  /** No two neighbours of the result are equal. */
  lemma {:induction false} DestutterHasNoRepeats<T>(s: seq<T>)
    ensures forall i :: 0 < i < |Destutter(s)| ==> Destutter(s)[i - 1] != Destutter(s)[i]
  {
    if |s| > 1 {
      DestutterHasNoRepeats(s[..|s| - 1]);
    }
  }

  /** A sequence without repeats is its own destuttering. */
  lemma {:induction false} DestutterFixesRepeatFree<T>(s: seq<T>)
    requires forall i :: 0 < i < |s| ==> s[i - 1] != s[i]
    ensures Destutter(s) == s
  {
    if |s| > 1 {
      DestutterFixesRepeatFree(s[..|s| - 1]);
      assert s == s[..|s| - 1] + [Last(s)];
    }
  }

  /** Sequences with the same destuttering keep it in common under every continuation. */
  lemma {:induction false} DestutterExtends<T>(s: seq<T>, t: seq<T>, b: seq<T>)
    requires s != [] && t != [] && Destutter(s) == Destutter(t)
    ensures Destutter(s + b) == Destutter(t + b)
  {
    if b == [] {
      assert s + b == s && t + b == t;
    } else {
      var front := b[..|b| - 1];
      DestutterExtends(s, t, front);
      assert s + b == (s + front) + [Last(b)] && t + b == (t + front) + [Last(b)];
      DestutterSnoc(s + front, Last(b));
      DestutterSnoc(t + front, Last(b));
    }
  }

  /** Repeating an element in place changes nothing; with the two lemmas above this pins Destutter down. */
  lemma DestutterAbsorbsRepeat<T>(a: seq<T>, x: T, b: seq<T>)
    ensures Destutter(a + [x, x] + b) == Destutter(a + [x] + b)
  {
    DestutterSnoc(a + [x], x);
    assert a + [x, x] == (a + [x]) + [x];
    DestutterExtends(a + [x, x], a + [x], b);
  }

  /** Every nonempty finite set of naturals has a least element. */
  lemma {:induction false} LeastExists(s: set<nat>)
    requires s != {}
    ensures exists m :: IsLeast(m, s)
  {
    var y :| y in s;
    var rest := s - {y};
    if rest == {} {
      assert s == {y};
      assert IsLeast(y, s);
    } else {
      LeastExists(rest);
      var m :| IsLeast(m, rest);
      assert forall x :: x in s ==> x == y || x in rest;
      assert IsLeast(if m < y then m else y, s);
    }
  }

  predicate IsLeast(m: nat, s: set<nat>) {
    m in s && forall x :: x in s ==> m <= x
  }

  function Least(s: set<nat>): (m: nat)
    requires s != {}
    ensures IsLeast(m, s)
  {
    LeastExists(s);
    var m :| m in s && IsLeast(m, s);
    m
  }

  /** The members of `s` in increasing order. */
  function Ascending(s: set<nat>): (r: seq<nat>)
    ensures forall x :: x in r <==> x in s
    ensures forall i, j :: 0 <= i < j < |r| ==> r[i] < r[j]
    decreases |s|
  {
    if s == {} then []
    else
      var m := Least(s);
      var rest := Ascending(s - {m});
      assert forall x :: x in s ==> x == m || x in s - {m};
      assert forall j :: 0 <= j < |rest| ==> rest[j] in rest && m < rest[j];
      [m] + rest
  }
}

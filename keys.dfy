/**
 * Key order of a price-keyed sorted map. A Dafny `map` has no iteration
 * order, so the ascending and descending enumerations of its key set are
 * defined here and proved to be the unique strictly sorted listings of it.
 */
module Keys {
  import opened Orders

  /** A set that is not empty has an element. */
  lemma HasElement(s: set<Decimal>)
    requires s != {}
    ensures exists x :: x in s
  {
    if forall x :: x !in s {
      assert false;
    }
  }

  /** Every non-empty set of prices has a least element. */
  lemma {:induction false} MinExists(s: set<Decimal>)
    requires s != {}
    ensures exists m :: m in s && forall k :: k in s ==> m <= k
  {
    HasElement(s);
    var x :| x in s;
    if s != {x} {
      MinExists(s - {x});
      var m :| m in s - {x} && forall k :: k in s - {x} ==> m <= k;
      var least := if x <= m then x else m;
      forall k | k in s ensures least <= k {
        if k != x { assert k in s - {x}; }
      }
      assert least in s;
    } else {
      assert forall k :: k in s ==> x <= k;
    }
  }

  /** Every non-empty set of prices has a greatest element. */
  lemma {:induction false} MaxExists(s: set<Decimal>)
    requires s != {}
    ensures exists m :: m in s && forall k :: k in s ==> k <= m
  {
    HasElement(s);
    var x :| x in s;
    if s != {x} {
      MaxExists(s - {x});
      var m :| m in s - {x} && forall k :: k in s - {x} ==> k <= m;
      var greatest := if m <= x then x else m;
      forall k | k in s ensures k <= greatest {
        if k != x { assert k in s - {x}; }
      }
      assert greatest in s;
    } else {
      assert forall k :: k in s ==> k <= x;
    }
  }

  /** The least key (the first key a sorted map yields). */
  function MinKey(s: set<Decimal>): (m: Decimal)
    requires s != {}
    ensures m in s && forall k :: k in s ==> m <= k
  {
    MinExists(s);
    var m :| m in s && forall k :: k in s ==> m <= k; m
  }

  /** The greatest key (the last key a sorted map yields). */
  function MaxKey(s: set<Decimal>): (m: Decimal)
    requires s != {}
    ensures m in s && forall k :: k in s ==> k <= m
  {
    MaxExists(s);
    var m :| m in s && forall k :: k in s ==> k <= m; m
  }

  predicate StrictlyAscending(xs: seq<Decimal>)
  {
    forall i, j :: 0 <= i < j < |xs| ==> xs[i] < xs[j]
  }

  predicate StrictlyDescending(xs: seq<Decimal>)
  {
    forall i, j :: 0 <= i < j < |xs| ==> xs[i] > xs[j]
  }

  /** A key below every element of a strictly ascending sequence can be put in front. */
  lemma ConsAscending(x: Decimal, xs: seq<Decimal>)
    requires StrictlyAscending(xs) && forall k :: k in xs ==> x < k
    ensures StrictlyAscending([x] + xs)
  {
    var ys := [x] + xs;
    forall i, j | 0 <= i < j < |ys| ensures ys[i] < ys[j] {
      assert ys[j] == xs[j - 1];
      if i == 0 {
        assert xs[j - 1] in xs;
      } else {
        assert ys[i] == xs[i - 1];
      }
    }
  }

  /** A key above every element of a strictly descending sequence can be put in front. */
  lemma ConsDescending(x: Decimal, xs: seq<Decimal>)
    requires StrictlyDescending(xs) && forall k :: k in xs ==> k < x
    ensures StrictlyDescending([x] + xs)
  {
    var ys := [x] + xs;
    forall i, j | 0 <= i < j < |ys| ensures ys[i] > ys[j] {
      assert ys[j] == xs[j - 1];
      if i == 0 {
        assert xs[j - 1] in xs;
      } else {
        assert ys[i] == xs[i - 1];
      }
    }
  }

  /** The keys in ascending order, as `keys()` of a sorted map yields them. */
  function Ascending(s: set<Decimal>): (xs: seq<Decimal>)
    ensures |xs| == |s|
    ensures forall k :: k in xs <==> k in s
    ensures StrictlyAscending(xs)
    decreases s
  {
    if s == {} then []
    else
      var m := MinKey(s);
      var rest := Ascending(s - {m});
      ConsAscending(m, rest);
      [m] + rest
  }

  /** The keys in descending order, as `keys().rev()` of a sorted map yields them. */
  function Descending(s: set<Decimal>): (xs: seq<Decimal>)
    ensures |xs| == |s|
    ensures forall k :: k in xs <==> k in s
    ensures StrictlyDescending(xs)
    decreases s
  {
    if s == {} then []
    else
      var m := MaxKey(s);
      var rest := Descending(s - {m});
      ConsDescending(m, rest);
      [m] + rest
  }

  /** In a strictly sorted listing of `s`, removing the head leaves a listing of the rest. */
  lemma TailLists(s: set<Decimal>, xs: seq<Decimal>)
    requires |xs| > 0
    requires forall i, j :: 0 <= i < j < |xs| ==> xs[i] != xs[j]
    requires forall k :: k in xs <==> k in s
    ensures forall k :: k in xs[1..] <==> k in s - {xs[0]}
  {
    forall k ensures k in xs[1..] <==> k in s - {xs[0]} {
      if k in xs[1..] {
        var j :| 0 <= j < |xs| - 1 && xs[1..][j] == k;
        assert xs[j + 1] == k;
      }
      if k in s - {xs[0]} {
        var j :| 0 <= j < |xs| && xs[j] == k;
        assert j != 0;
        assert xs[1..][j - 1] == k;
      }
    }
  }

  /** The head of a strictly ascending listing of `s` is its least key. */
  lemma AscendingHead(s: set<Decimal>, xs: seq<Decimal>)
    requires |xs| > 0 && StrictlyAscending(xs)
    requires forall k :: k in xs <==> k in s
    ensures s != {} && MinKey(s) == xs[0]
  {
    assert xs[0] in xs;
    forall k | k in s ensures xs[0] <= k {
      var j :| 0 <= j < |xs| && xs[j] == k;
      assert j == 0 || xs[0] < xs[j];
    }
  }

  /** The head of a strictly descending listing of `s` is its greatest key. */
  lemma DescendingHead(s: set<Decimal>, xs: seq<Decimal>)
    requires |xs| > 0 && StrictlyDescending(xs)
    requires forall k :: k in xs <==> k in s
    ensures s != {} && MaxKey(s) == xs[0]
  {
    assert xs[0] in xs;
    forall k | k in s ensures k <= xs[0] {
      var j :| 0 <= j < |xs| && xs[j] == k;
      assert j == 0 || xs[0] > xs[j];
    }
  }

  /** The tail of a strictly ascending listing of `s` lists the rest of `s`. */
  lemma AscendingTail(s: set<Decimal>, xs: seq<Decimal>)
    requires |xs| > 0 && StrictlyAscending(xs)
    requires forall k :: k in xs <==> k in s
    ensures StrictlyAscending(xs[1..])
    ensures forall k :: k in xs[1..] <==> k in s - {xs[0]}
  {
    TailLists(s, xs);
    assert StrictlyAscending(xs[1..]);
  }

  /** The tail of a strictly descending listing of `s` lists the rest of `s`. */
  lemma DescendingTail(s: set<Decimal>, xs: seq<Decimal>)
    requires |xs| > 0 && StrictlyDescending(xs)
    requires forall k :: k in xs <==> k in s
    ensures StrictlyDescending(xs[1..])
    ensures forall k :: k in xs[1..] <==> k in s - {xs[0]}
  {
    TailLists(s, xs);
    assert StrictlyDescending(xs[1..]);
  }

  /** A listing of `s` whose tail is `Ascending` of the rest of `s` is `Ascending(s)`. */
  lemma AscendingCons(s: set<Decimal>, xs: seq<Decimal>)
    requires |xs| > 0 && StrictlyAscending(xs)
    requires forall k :: k in xs <==> k in s
    requires Ascending(s - {xs[0]}) == xs[1..]
    ensures Ascending(s) == xs
  {
    AscendingHead(s, xs);
    assert Ascending(s) == [xs[0]] + Ascending(s - {xs[0]});
    assert xs == [xs[0]] + xs[1..];
  }

  /** A strictly ascending listing of exactly the keys of `s` is `Ascending(s)`. */
  lemma {:induction false} AscendingUnique(s: set<Decimal>, xs: seq<Decimal>)
    requires StrictlyAscending(xs)
    requires forall k :: k in xs <==> k in s
    ensures Ascending(s) == xs
    decreases |xs|
  {
    if xs == [] {
      assert forall k :: k !in s;
    } else {
      AscendingTail(s, xs);
      AscendingUnique(s - {xs[0]}, xs[1..]);
      AscendingCons(s, xs);
    }
  }

  /** A listing of `s` whose tail is `Descending` of the rest of `s` is `Descending(s)`. */
  lemma DescendingCons(s: set<Decimal>, xs: seq<Decimal>)
    requires |xs| > 0 && StrictlyDescending(xs)
    requires forall k :: k in xs <==> k in s
    requires Descending(s - {xs[0]}) == xs[1..]
    ensures Descending(s) == xs
  {
    DescendingHead(s, xs);
    assert Descending(s) == [xs[0]] + Descending(s - {xs[0]});
    assert xs == [xs[0]] + xs[1..];
  }

  /** A strictly descending listing of exactly the keys of `s` is `Descending(s)`. */
  lemma {:induction false} DescendingUnique(s: set<Decimal>, xs: seq<Decimal>)
    requires StrictlyDescending(xs)
    requires forall k :: k in xs <==> k in s
    ensures Descending(s) == xs
    decreases |xs|
  {
    if xs == [] {
      assert forall k :: k !in s;
    } else {
      DescendingTail(s, xs);
      DescendingUnique(s - {xs[0]}, xs[1..]);
      DescendingCons(s, xs);
    }
  }
}

/**
 * Price levels as `[price, size]` pairs and the orderings applied to them.
 *
 * Both the server's depth projection and the browser's order-book panel sort such pairs with the
 * comparators `(a, b) => a[0] - b[0]` (ascending) and `(a, b) => b[0] - a[0]` (descending).
 * JavaScript's `Array.prototype.sort` is stable, so the result is the unique stable sort by price;
 * here it is an insertion sort, and the lemmas say it is ordered, a permutation and stable.
 */
module Levels {

  /** One `[price, size]` pair. */
  datatype PriceLevel = PriceLevel(price: real, size: real)

  predicate Ascending(s: seq<PriceLevel>) {
    forall i, j :: 0 <= i < j < |s| ==> s[i].price <= s[j].price
  }

  predicate Descending(s: seq<PriceLevel>) {
    forall i, j :: 0 <= i < j < |s| ==> s[i].price >= s[j].price
  }

  /** The levels of `s` at exactly price `p`, in their order in `s`. */
  function AtPrice(s: seq<PriceLevel>, p: real): seq<PriceLevel> {
    if s == [] then []
    else if s[0].price == p then [s[0]] + AtPrice(s[1..], p)
    else AtPrice(s[1..], p)
  }

  // ---------------------------------------------------------------- ascending

  /** Inserts `x` before the first level whose price is not below its own. */
  function InsertAsc(x: PriceLevel, s: seq<PriceLevel>): (r: seq<PriceLevel>)
    ensures |r| == |s| + 1
  {
    if s == [] || x.price <= s[0].price then [x] + s else [s[0]] + InsertAsc(x, s[1..])
  }

  /**
   * `[...s].sort((a, b) => a[0] - b[0])`: a sorted copy of the same length. That it is ascending,
   * a permutation of `s` and stable is proved below.
   */
  function SortAsc(s: seq<PriceLevel>): (r: seq<PriceLevel>)
    ensures |r| == |s|
  {
    if s == [] then [] else InsertAsc(s[0], SortAsc(s[1..]))
  }

  lemma {:induction false} InsertAscPermutes(x: PriceLevel, s: seq<PriceLevel>)
    ensures multiset(InsertAsc(x, s)) == multiset{x} + multiset(s)
  {
    if s != [] && x.price > s[0].price {
      InsertAscPermutes(x, s[1..]);
      assert s == [s[0]] + s[1..];
    }
  }

  /** Inserting a level at or above `lo` into levels at or above `lo` keeps every level there. */
  lemma {:induction false} InsertAscAbove(x: PriceLevel, s: seq<PriceLevel>, lo: real)
    requires lo <= x.price
    requires forall i :: 0 <= i < |s| ==> lo <= s[i].price
    ensures forall i :: 0 <= i < |InsertAsc(x, s)| ==> lo <= InsertAsc(x, s)[i].price
  {
    if s != [] && x.price > s[0].price {
      InsertAscAbove(x, s[1..], lo);
      var t := InsertAsc(x, s[1..]);
      assert forall i :: 0 < i < |t| + 1 ==> ([s[0]] + t)[i] == t[i - 1];
    }
  }

  lemma {:induction false} InsertAscOrdered(x: PriceLevel, s: seq<PriceLevel>)
    requires Ascending(s)
    ensures Ascending(InsertAsc(x, s))
  {
    if s != [] && x.price > s[0].price {
      var t := InsertAsc(x, s[1..]);
      InsertAscOrdered(x, s[1..]);
      InsertAscAbove(x, s[1..], s[0].price);
      var r := [s[0]] + t;
      forall i, j | 0 <= i < j < |r| ensures r[i].price <= r[j].price {
        if i > 0 { assert r[i] == t[i - 1] && r[j] == t[j - 1]; }
      }
    }
  }

  lemma {:induction false} InsertAscAtPrice(x: PriceLevel, s: seq<PriceLevel>, p: real)
    ensures AtPrice(InsertAsc(x, s), p) == if x.price == p then [x] + AtPrice(s, p) else AtPrice(s, p)
  {
    if s == [] || x.price <= s[0].price {
      assert ([x] + s)[1..] == s;
    } else {
      var t := InsertAsc(x, s[1..]);
      InsertAscAtPrice(x, s[1..], p);
      assert ([s[0]] + t)[1..] == t;
    }
  }

  /** The ascending sort is ordered. */
  lemma {:induction false} SortAscAscending(s: seq<PriceLevel>)
    ensures Ascending(SortAsc(s))
  {
    if s != [] {
      SortAscAscending(s[1..]);
      InsertAscOrdered(s[0], SortAsc(s[1..]));
    }
  }

  /** The ascending sort is a permutation of its input. */
  lemma {:induction false} SortAscPermutes(s: seq<PriceLevel>)
    ensures multiset(SortAsc(s)) == multiset(s)
  {
    if s != [] {
      SortAscPermutes(s[1..]);
      InsertAscPermutes(s[0], SortAsc(s[1..]));
      assert s == [s[0]] + s[1..];
    }
  }

  /** The ascending sort is stable: levels of equal price keep their input order. */
  lemma {:induction false} SortAscStable(s: seq<PriceLevel>, p: real)
    ensures AtPrice(SortAsc(s), p) == AtPrice(s, p)
  {
    if s != [] {
      SortAscStable(s[1..], p);
      InsertAscAtPrice(s[0], SortAsc(s[1..]), p);
    }
  }

  // --------------------------------------------------------------- descending

  /** Inserts `x` before the first level whose price is not above its own. */
  function InsertDesc(x: PriceLevel, s: seq<PriceLevel>): (r: seq<PriceLevel>)
    ensures |r| == |s| + 1
  {
    if s == [] || x.price >= s[0].price then [x] + s else [s[0]] + InsertDesc(x, s[1..])
  }

  /**
   * `[...s].sort((a, b) => b[0] - a[0])`: a sorted copy of the same length. That it is
   * descending, a permutation of `s` and stable is proved below.
   */
  function SortDesc(s: seq<PriceLevel>): (r: seq<PriceLevel>)
    ensures |r| == |s|
  {
    if s == [] then [] else InsertDesc(s[0], SortDesc(s[1..]))
  }

  lemma {:induction false} InsertDescPermutes(x: PriceLevel, s: seq<PriceLevel>)
    ensures multiset(InsertDesc(x, s)) == multiset{x} + multiset(s)
  {
    if s != [] && x.price < s[0].price {
      InsertDescPermutes(x, s[1..]);
      assert s == [s[0]] + s[1..];
    }
  }

  /** Inserting a level at or below `hi` into levels at or below `hi` keeps every level there. */
  lemma {:induction false} InsertDescBelow(x: PriceLevel, s: seq<PriceLevel>, hi: real)
    requires x.price <= hi
    requires forall i :: 0 <= i < |s| ==> s[i].price <= hi
    ensures forall i :: 0 <= i < |InsertDesc(x, s)| ==> InsertDesc(x, s)[i].price <= hi
  {
    if s != [] && x.price < s[0].price {
      InsertDescBelow(x, s[1..], hi);
      var t := InsertDesc(x, s[1..]);
      assert forall i :: 0 < i < |t| + 1 ==> ([s[0]] + t)[i] == t[i - 1];
    }
  }

  lemma {:induction false} InsertDescOrdered(x: PriceLevel, s: seq<PriceLevel>)
    requires Descending(s)
    ensures Descending(InsertDesc(x, s))
  {
    if s != [] && x.price < s[0].price {
      var t := InsertDesc(x, s[1..]);
      InsertDescOrdered(x, s[1..]);
      InsertDescBelow(x, s[1..], s[0].price);
      var r := [s[0]] + t;
      forall i, j | 0 <= i < j < |r| ensures r[i].price >= r[j].price {
        if i > 0 { assert r[i] == t[i - 1] && r[j] == t[j - 1]; }
      }
    }
  }

  lemma {:induction false} InsertDescAtPrice(x: PriceLevel, s: seq<PriceLevel>, p: real)
    ensures AtPrice(InsertDesc(x, s), p) == if x.price == p then [x] + AtPrice(s, p) else AtPrice(s, p)
  {
    if s == [] || x.price >= s[0].price {
      assert ([x] + s)[1..] == s;
    } else {
      var t := InsertDesc(x, s[1..]);
      InsertDescAtPrice(x, s[1..], p);
      assert ([s[0]] + t)[1..] == t;
    }
  }

  /** The descending sort is ordered. */
  lemma {:induction false} SortDescDescending(s: seq<PriceLevel>)
    ensures Descending(SortDesc(s))
  {
    if s != [] {
      SortDescDescending(s[1..]);
      InsertDescOrdered(s[0], SortDesc(s[1..]));
    }
  }

  /** The descending sort is a permutation of its input. */
  lemma {:induction false} SortDescPermutes(s: seq<PriceLevel>)
    ensures multiset(SortDesc(s)) == multiset(s)
  {
    if s != [] {
      SortDescPermutes(s[1..]);
      InsertDescPermutes(s[0], SortDesc(s[1..]));
      assert s == [s[0]] + s[1..];
    }
  }

  /** The descending sort is stable: levels of equal price keep their input order. */
  lemma {:induction false} SortDescStable(s: seq<PriceLevel>, p: real)
    ensures AtPrice(SortDesc(s), p) == AtPrice(s, p)
  {
    if s != [] {
      SortDescStable(s[1..], p);
      InsertDescAtPrice(s[0], SortDesc(s[1..]), p);
    }
  }

  // ------------------------------------------------------------------ reverse

  /** `[...s].reverse()`. */
  function Reverse(s: seq<PriceLevel>): (r: seq<PriceLevel>)
    ensures |r| == |s|
    ensures forall i :: 0 <= i < |s| ==> r[i] == s[|s| - 1 - i]
  {
    if s == [] then [] else Reverse(s[1..]) + [s[0]]
  }

  /** Reversing an ascending list gives a descending permutation of it. */
  lemma {:induction false} ReverseAscending(s: seq<PriceLevel>)
    requires Ascending(s)
    ensures Descending(Reverse(s))
    ensures multiset(Reverse(s)) == multiset(s)
  {
    if s != [] {
      assert Ascending(s[1..]);
      ReverseAscending(s[1..]);
      assert s == [s[0]] + s[1..];
    }
  }

  // ------------------------------------------------------------ best prices

  /** The lowest price in a non-empty list. */
  function MinPrice(s: seq<PriceLevel>): (m: real)
    requires s != []
    ensures exists i :: 0 <= i < |s| && s[i].price == m
    ensures forall i :: 0 <= i < |s| ==> m <= s[i].price
  {
    if |s| == 1 then s[0].price
    else
      var rest := MinPrice(s[1..]);
      assert forall i :: 1 <= i < |s| ==> s[i] == s[1..][i - 1];
      if s[0].price <= rest then s[0].price else rest
  }

  /** The highest price in a non-empty list. */
  function MaxPrice(s: seq<PriceLevel>): (m: real)
    requires s != []
    ensures exists i :: 0 <= i < |s| && s[i].price == m
    ensures forall i :: 0 <= i < |s| ==> m >= s[i].price
  {
    if |s| == 1 then s[0].price
    else
      var rest := MaxPrice(s[1..]);
      assert forall i :: 1 <= i < |s| ==> s[i] == s[1..][i - 1];
      if s[0].price >= rest then s[0].price else rest
  }

  /** The head of the ascending sort carries the lowest price of the input. */
  lemma SortAscHeadIsMin(s: seq<PriceLevel>)
    requires s != []
    ensures SortAsc(s) != [] && SortAsc(s)[0].price == MinPrice(s)
  {
    var t := SortAsc(s);
    SortAscPermutes(s);
    SortAscAscending(s);
    assert |t| == |s| by { assert |multiset(t)| == |multiset(s)|; }
    // the head of t is some input level, and every input level is somewhere in t
    assert t[0] in multiset(s);
    var m := MinPrice(s);
    var i :| 0 <= i < |s| && s[i].price == m;
    assert s[i] in multiset(t);
    var j :| 0 <= j < |t| && t[j] == s[i];
    assert t[0].price <= t[j].price;
    var k :| 0 <= k < |s| && s[k] == t[0];
  }

  /** The head of the descending sort carries the highest price of the input. */
  lemma SortDescHeadIsMax(s: seq<PriceLevel>)
    requires s != []
    ensures SortDesc(s) != [] && SortDesc(s)[0].price == MaxPrice(s)
  {
    var t := SortDesc(s);
    SortDescPermutes(s);
    SortDescDescending(s);
    assert |t| == |s| by { assert |multiset(t)| == |multiset(s)|; }
    assert t[0] in multiset(s);
    var m := MaxPrice(s);
    var i :| 0 <= i < |s| && s[i].price == m;
    assert s[i] in multiset(t);
    var j :| 0 <= j < |t| && t[j] == s[i];
    assert t[0].price >= t[j].price;
    var k :| 0 <= k < |s| && s[k] == t[0];
  }
}

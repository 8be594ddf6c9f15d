/** Vocabulary shared by the whole model: optional values, JavaScript's
    Math.round on an integer quotient, and the list helpers that the
    source writes with filter, reduce, Math.min and Math.max. */
module Common {

  datatype Option<T> = None | Some(value: T)

  /** Milliseconds in one minute and in one calendar day. */
  const MsPerMinute: int := 60000
  const MsPerDay: int := 86400000

  /** Math.round(a / b) for an integer a and a positive b. JavaScript rounds
      to floor(x + 1/2); for x = a / b that is floor((2a + b) / 2b), which
      Dafny's floor division on a positive divisor computes exactly. The
      result is the unique integer r with r - 1/2 <= a / b < r + 1/2. */
  function RoundDiv(a: int, b: int): (r: int)
    requires b > 0
    ensures 2 * b * r <= 2 * a + b < 2 * b * (r + 1)
  {
    var q := (2 * a + b) / (2 * b);
    assert 2 * a + b == 2 * b * q + (2 * a + b) % (2 * b);
    q
  }

  /** Only one integer lies in the interval RoundDiv's contract describes. */
  lemma RoundDivUnique(a: int, b: int, r: int)
    requires b > 0
    requires 2 * b * r <= 2 * a + b < 2 * b * (r + 1)
    ensures r == RoundDiv(a, b)
  {
    var q := RoundDiv(a, b);
    if r < q {
      MulMono(2 * b, r + 1, q);
    } else if q < r {
      MulMono(2 * b, q + 1, r);
    }
  }

  lemma MulMono(c: int, x: int, y: int)
    requires c > 0 && x <= y
    ensures c * x <= c * y
  {
    assert c * y - c * x == c * (y - x);
  }

  /** A rounded mean stays between the bounds of what was averaged:
      if b * lo <= a <= b * hi then lo <= round(a / b) <= hi. */
  lemma RoundDivBetween(a: int, b: int, lo: int, hi: int)
    requires b > 0
    requires b * lo <= a <= b * hi
    ensures lo <= RoundDiv(a, b) <= hi
  {
    var r := RoundDiv(a, b);
    if r < lo {
      MulMono(2 * b, r + 1, lo);
    }
    if r > hi {
      MulMono(2 * b, hi + 1, r);
    }
  }

  /** The elements of s that satisfy p, in their original order
      (JavaScript's Array.prototype.filter). */
  function Filter<T>(s: seq<T>, p: T -> bool): (r: seq<T>)
    ensures |r| <= |s|
    ensures forall i :: 0 <= i < |r| ==> r[i] in s && p(r[i])
    ensures forall i :: 0 <= i < |s| && p(s[i]) ==> s[i] in r
  {
    if s == [] then []
    else Filter(s[..|s| - 1], p) + (if p(s[|s| - 1]) then [s[|s| - 1]] else [])
  }

  /** Filtering distributes over concatenation, so it keeps relative order. */
  lemma {:induction false} FilterAppend<T>(a: seq<T>, b: seq<T>, p: T -> bool)
    ensures Filter(a + b, p) == Filter(a, p) + Filter(b, p)
  {
    if b == [] {
      assert a + b == a;
    } else {
      var b' := b[..|b| - 1];
      assert (a + b)[..|a + b| - 1] == a + b';
      FilterAppend(a, b', p);
    }
  }

  /** A filter that every element passes keeps the whole list. */
  lemma {:induction false} FilterAll<T>(s: seq<T>, p: T -> bool)
    requires forall i :: 0 <= i < |s| ==> p(s[i])
    ensures Filter(s, p) == s
  {
    if s != [] {
      FilterAll(s[..|s| - 1], p);
    }
  }

  /** A filter that rejects exactly the element at index i removes just
      that element. */
  lemma {:induction false} FilterRemovesOne<T>(s: seq<T>, i: nat, p: T -> bool)
    requires i < |s| && !p(s[i])
    requires forall j :: 0 <= j < |s| && j != i ==> p(s[j])
    ensures Filter(s, p) == s[..i] + s[i + 1..]
  {
    var init := s[..|s| - 1];
    if i == |s| - 1 {
      FilterAll(init, p);
    } else {
      FilterRemovesOne(init, i, p);
      assert init[..i] + init[i + 1..] + [s[|s| - 1]] == s[..i] + s[i + 1..];
    }
  }

  /** A filter that no element passes leaves nothing. */
  lemma {:induction false} FilterNone<T>(s: seq<T>, p: T -> bool)
    requires forall i :: 0 <= i < |s| ==> !p(s[i])
    ensures Filter(s, p) == []
  {
    if s != [] {
      FilterNone(s[..|s| - 1], p);
    }
  }

  /** Filters with predicates that agree on every element give the same list. */
  lemma {:induction false} FilterSame<T>(s: seq<T>, p: T -> bool, q: T -> bool)
    requires forall i :: 0 <= i < |s| ==> p(s[i]) == q(s[i])
    ensures Filter(s, p) == Filter(s, q)
  {
    if s != [] {
      FilterSame(s[..|s| - 1], p, q);
    }
  }

  /** The index of the first element satisfying p, if any
      (Array.prototype.find, which returns that element). */
  function Find<T>(s: seq<T>, p: T -> bool): (r: Option<nat>)
    ensures r.Some? ==> r.value < |s| && p(s[r.value])
    ensures r.Some? ==> forall j :: 0 <= j < r.value ==> !p(s[j])
    ensures r.None? ==> forall j :: 0 <= j < |s| ==> !p(s[j])
  {
    if s == [] then None
    else if p(s[0]) then Some(0)
    else match Find(s[1..], p)
      case None => None
      case Some(i) => Some(i + 1)
  }

  /** s is ordered by key, largest first. */
  ghost predicate SortedDesc<T>(s: seq<T>, key: T -> int)
  {
    forall i, j :: 0 <= i < j < |s| ==> key(s[i]) >= key(s[j])
  }

  /** Every element of s has a key of at least v. */
  ghost predicate KeysAtLeast<T>(s: seq<T>, key: T -> int, v: int)
  {
    forall i :: 0 <= i < |s| ==> key(s[i]) >= v
  }

  lemma KeysAtLeastSnoc<T>(a: seq<T>, y: T, key: T -> int, v: int)
    ensures KeysAtLeast(a + [y], key, v) <==> KeysAtLeast(a, key, v) && key(y) >= v
  {
    assert forall i :: 0 <= i < |a| ==> (a + [y])[i] == a[i];
    assert (a + [y])[|a|] == y;
  }

  lemma SortedDescSnoc<T>(a: seq<T>, y: T, key: T -> int)
    requires SortedDesc(a, key) && KeysAtLeast(a, key, key(y))
    ensures SortedDesc(a + [y], key)
  {
    assert forall i :: 0 <= i < |a| ==> (a + [y])[i] == a[i];
  }

  /** Inserts x into a list sorted by key, largest first, after every
      element whose key is at least x's, as a stable sort does. */
  function InsertDesc<T>(x: T, s: seq<T>, key: T -> int): (r: seq<T>)
    requires SortedDesc(s, key)
    ensures SortedDesc(r, key)
    ensures multiset(r) == multiset(s) + multiset{x}
    ensures forall v :: KeysAtLeast(s, key, v) && key(x) >= v ==> KeysAtLeast(r, key, v)
  {
    if s == [] then [x]
    else
      var init, last := s[..|s| - 1], s[|s| - 1];
      assert s == init + [last];
      assert KeysAtLeast(init, key, key(last));
      KeysAtLeastSnoc(init, last, key, key(last));
      if key(last) >= key(x) then
        assert KeysAtLeast(s, key, key(x));
        SortedDescSnoc(s, x, key);
        assert forall v :: KeysAtLeast(s, key, v) && key(x) >= v ==> KeysAtLeast(s + [x], key, v) by {
          forall v ensures KeysAtLeast(s, key, v) && key(x) >= v ==> KeysAtLeast(s + [x], key, v) {
            KeysAtLeastSnoc(s, x, key, v);
          }
        }
        s + [x]
      else
        var r' := InsertDesc(x, init, key);
        SortedDescSnoc(r', last, key);
        assert forall v :: KeysAtLeast(s, key, v) && key(x) >= v ==> KeysAtLeast(r' + [last], key, v) by {
          forall v ensures KeysAtLeast(s, key, v) && key(x) >= v ==> KeysAtLeast(r' + [last], key, v) {
            KeysAtLeastSnoc(init, last, key, v);
            KeysAtLeastSnoc(r', last, key, v);
          }
        }
        r' + [last]
  }

  /** A stable insertion sort by key, largest first: the result is ordered
      and is a permutation of the input. */
  function SortDesc<T>(s: seq<T>, key: T -> int): (r: seq<T>)
    ensures SortedDesc(r, key)
    ensures multiset(r) == multiset(s)
  {
    if s == [] then []
    else
      assert s == s[..|s| - 1] + [s[|s| - 1]];
      InsertDesc(s[|s| - 1], SortDesc(s[..|s| - 1], key), key)
  }

  /** The sum of a list of integers (a reduce with + from 0). */
  function Sum(s: seq<int>): int
  {
    if s == [] then 0 else Sum(s[..|s| - 1]) + s[|s| - 1]
  }

  /** Math.min(...s) on a non-empty list. */
  function Min(s: seq<int>): (m: int)
    requires |s| > 0
    ensures m in s
    ensures forall x :: x in s ==> m <= x
  {
    if |s| == 1 then s[0]
    else
      var init, last := s[..|s| - 1], s[|s| - 1];
      var m' := Min(init);
      assert forall x :: x in s ==> x in init || x == last by {
        assert s == init + [last];
      }
      assert m' in s by { assert s == init + [last]; }
      if last < m' then last else m'
  }

  /** Math.max(...s) on a non-empty list. */
  function Max(s: seq<int>): (m: int)
    requires |s| > 0
    ensures m in s
    ensures forall x :: x in s ==> x <= m
  {
    if |s| == 1 then s[0]
    else
      var init, last := s[..|s| - 1], s[|s| - 1];
      var m' := Max(init);
      assert forall x :: x in s ==> x in init || x == last by {
        assert s == init + [last];
      }
      assert m' in s by { assert s == init + [last]; }
      if last > m' then last else m'
  }

  /** If every element is at least lo and at most hi, the sum of n
      elements lies between n * lo and n * hi. */
  lemma {:induction false} SumBetween(s: seq<int>, lo: int, hi: int)
    requires forall x :: x in s ==> lo <= x <= hi
    ensures |s| * lo <= Sum(s) <= |s| * hi
  {
    if s != [] {
      var s' := s[..|s| - 1];
      assert forall x :: x in s' ==> x in s;
      assert s[|s| - 1] in s;
      SumBetween(s', lo, hi);
      assert |s| * lo == |s'| * lo + lo;
      assert |s| * hi == |s'| * hi + hi;
    }
  }

  /** The rounded mean of a non-empty list lies between its minimum and its
      maximum. */
  lemma MeanBetweenMinMax(s: seq<int>)
    requires |s| > 0
    ensures Min(s) <= RoundDiv(Sum(s), |s|) <= Max(s)
  {
    SumBetween(s, Min(s), Max(s));
    RoundDivBetween(Sum(s), |s|, Min(s), Max(s));
  }
}

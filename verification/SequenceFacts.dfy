/** Facts about sequences and finite sets that several services rely on: duplicate detection by
    first index, counting arguments, and the size of an interval of integers. */
module SequenceFacts {

  datatype Option<+T> = None | Some(value: T)

  /** The new value if one is given. */
  function Or<T>(change: Option<T>, current: T): T {
    match change case Some(v) => v case None => current
  }

  ghost predicate Distinct<T>(s: seq<T>) {
    forall i, j :: 0 <= i < j < |s| ==> s[i] != s[j]
  }

  function IndexOf<T(==)>(s: seq<T>, x: T): (r: int)
    ensures -1 <= r < |s|
    ensures r == -1 <==> x !in s
    ensures r >= 0 ==> s[r] == x && x !in s[..r]
  {
    if s == [] then -1
    else if s[0] == x then 0
    else
      var tail := IndexOf(s[1..], x);
      assert tail >= 0 ==> s[..tail + 1] == [s[0]] + s[1..][..tail];
      if tail == -1 then -1 else tail + 1
  }

  /** `s.filter((x, i) => s.indexOf(x) !== i)`, from position `from` on. */
  function RepeatsFrom<T(==,!new)>(s: seq<T>, from: nat): (r: seq<T>)
    requires from <= |s|
    ensures forall x :: x in r <==> exists i, j :: 0 <= i < j < |s| && from <= j && s[i] == x && s[j] == x
    decreases |s| - from
  {
    if from == |s| then []
    else if IndexOf(s, s[from]) != from then [s[from]] + RepeatsFrom(s, from + 1)
    else RepeatsFrom(s, from + 1)
  }

  function Repeats<T(==,!new)>(s: seq<T>): (r: seq<T>)
    ensures forall x :: x in r <==> exists i, j :: 0 <= i < j < |s| && s[i] == x && s[j] == x
  {
    RepeatsFrom(s, 0)
  }

  /** The duplicate filter finds nothing exactly when no element occurs twice. */
  lemma NoRepeatsIffDistinct<T(!new)>(s: seq<T>)
    ensures Repeats(s) == [] <==> Distinct(s)
  {
    if Repeats(s) != [] {
      assert Repeats(s)[0] in Repeats(s);
    }
    if !Distinct(s) {
      var i, j :| 0 <= i < j < |s| && s[i] == s[j];
      assert s[i] in Repeats(s);
    }
  }

  function Elements<T(==)>(s: seq<T>): (r: set<T>) {
    set x | x in s
  }

  lemma ElementsOfCons<T>(s: seq<T>)
    requires s != []
    ensures Elements(s) == {s[0]} + Elements(s[1..])
  {
  }

  /** A sequence has at most as many different elements as positions, and exactly as many iff
      nothing repeats. */
  lemma {:induction false} DistinctByCounting<T>(s: seq<T>)
    ensures |Elements(s)| <= |s|
    ensures |Elements(s)| == |s| <==> Distinct(s)
  {
    if s != [] {
      var tail := s[1..];
      DistinctByCounting(tail);
      ElementsOfCons(s);
      if s[0] in tail {
        assert Elements(s) == Elements(tail);
        var j :| 0 <= j < |tail| && tail[j] == s[0];
        assert s[j + 1] == s[0];
      } else {
        assert Distinct(s) <==> Distinct(tail) by {
          if Distinct(s) {
            forall i, j | 0 <= i < j < |tail| ensures tail[i] != tail[j] {
              assert tail[i] == s[i + 1] && tail[j] == s[j + 1];
            }
          }
          if Distinct(tail) {
            forall i, j | 0 <= i < j < |s| ensures s[i] != s[j] {
              if i > 0 { assert s[i] == tail[i - 1] && s[j] == tail[j - 1]; } else { assert s[j] == tail[j - 1]; }
            }
          }
        }
      }
    }
  }

  lemma {:induction false} SubsetSize<T>(a: set<T>, b: set<T>)
    requires a <= b
    ensures |a| <= |b|
    ensures |a| == |b| ==> a == b
  {
    assert b == a + (b - a);
    assert |b| == |a| + |b - a|;
    if |a| == |b| { assert b - a == {}; }
  }

  /** `found.length === ids.length`, where `found` holds the different known ids among `ids`,
      holds exactly for a duplicate-free list of known ids. */
  lemma CountMatchesIff<T>(ids: seq<T>, known: set<T>)
    ensures |Elements(ids) * known| == |ids| <==> Distinct(ids) && Elements(ids) <= known
  {
    DistinctByCounting(ids);
    SubsetSize(Elements(ids) * known, Elements(ids));
    if Elements(ids) <= known {
      assert Elements(ids) * known == Elements(ids);
    }
  }

  predicate Between(lo: int, n: int, hi: int) {
    lo <= n < hi
  }

  /** The integers of the half-open interval [lo, hi). */
  function Range(lo: int, hi: int): (r: set<int>)
    ensures forall n :: n in r <==> Between(lo, n, hi)
  {
    set n | lo <= n < hi && Between(lo, n, hi)
  }

  lemma {:induction false} RangeSize(lo: int, hi: int)
    requires lo <= hi
    ensures |Range(lo, hi)| == hi - lo
    decreases hi - lo
  {
    if lo < hi {
      RangeSize(lo, hi - 1);
      assert Range(lo, hi) == Range(lo, hi - 1) + {hi - 1};
    } else {
      assert Range(lo, hi) == {};
    }
  }

  // ---- filters -----------------------------------------------------------------------------

  /** The elements that satisfy `p`, in order. */
  function Filtered<T>(s: seq<T>, p: T -> bool): seq<T> {
    if s == [] then [] else (if p(s[0]) then [s[0]] else []) + Filtered(s[1..], p)
  }

  lemma {:induction false} FilteredMember<T>(s: seq<T>, p: T -> bool, x: T)
    ensures x in Filtered(s, p) <==> x in s && p(x)
  {
    if s != [] {
      FilteredMember(s[1..], p, x);
      assert x in s <==> x == s[0] || x in s[1..];
    }
  }

  lemma {:induction false} FilteredConcat<T>(a: seq<T>, b: seq<T>, p: T -> bool)
    ensures Filtered(a + b, p) == Filtered(a, p) + Filtered(b, p)
  {
    if a == [] {
      assert a + b == b;
    } else {
      var head := if p(a[0]) then [a[0]] else [];
      FilteredConcat(a[1..], b, p);
      assert (a + b)[1..] == a[1..] + b && (a + b)[0] == a[0];
      assert Filtered(a + b, p) == head + (Filtered(a[1..], p) + Filtered(b, p));
      assert head + (Filtered(a[1..], p) + Filtered(b, p)) == (head + Filtered(a[1..], p)) + Filtered(b, p);
    }
  }

  lemma {:induction false} FilteredAll<T>(s: seq<T>, p: T -> bool)
    requires forall x :: x in s ==> p(x)
    ensures Filtered(s, p) == s
  {
    if s != [] {
      assert s[0] in s;
      FilteredAll(s[1..], p);
    }
  }

  lemma {:induction false} FilteredNone<T>(s: seq<T>, p: T -> bool)
    requires forall x :: x in s ==> !p(x)
    ensures Filtered(s, p) == []
  {
    if s != [] {
      assert s[0] in s;
      FilteredNone(s[1..], p);
    }
  }

  /** A filter sees through a weaker one. */
  lemma {:induction false} FilteredTwice<T>(s: seq<T>, p: T -> bool, q: T -> bool)
    requires forall x :: x in s && p(x) ==> q(x)
    ensures Filtered(Filtered(s, q), p) == Filtered(s, p)
  {
    if s != [] {
      assert s[0] in s;
      FilteredTwice(s[1..], p, q);
      FilteredConcat(if q(s[0]) then [s[0]] else [], Filtered(s[1..], q), p);
    }
  }

  lemma {:induction false} FilteredDistinct<T>(s: seq<T>, p: T -> bool)
    requires Distinct(s)
    ensures Distinct(Filtered(s, p))
  {
    if s != [] {
      var rest := Filtered(s[1..], p);
      FilteredDistinct(s[1..], p);
      FilteredMember(s[1..], p, s[0]);
      ConcatDistinct(if p(s[0]) then [s[0]] else [], rest);
    }
  }

  lemma ConcatDistinct<T>(a: seq<T>, b: seq<T>)
    requires Distinct(a) && Distinct(b) && forall x :: x in a ==> x !in b
    ensures Distinct(a + b)
  {
    forall i, j | 0 <= i < j < |a + b| ensures (a + b)[i] != (a + b)[j] {
      if i < |a| <= j { assert (a + b)[i] in a && (a + b)[j] in b; }
    }
  }

  function Image<T, U>(s: set<T>, f: T -> U): set<U> {
    set x | x in s :: f(x)
  }

  ghost predicate OneToOne<T(!new), U(!new)>(s: set<T>, f: T -> U) {
    forall x, y :: x in s && y in s && f(x) == f(y) ==> x == y
  }

  lemma ImageOfOneMore<T(!new), U(!new)>(s: set<T>, f: T -> U, x: T)
    requires x in s
    ensures Image(s, f) == Image(s - {x}, f) + {f(x)}
  {
    forall u | u in Image(s, f) ensures u in Image(s - {x}, f) + {f(x)} {
      var y :| y in s && f(y) == u;
      assert y != x ==> y in s - {x};
    }
  }

  /** An image is as large as its set exactly when no two elements share their value. */
  lemma {:induction false} ImageSize<T(!new), U(!new)>(s: set<T>, f: T -> U)
    ensures |Image(s, f)| <= |s|
    ensures |Image(s, f)| == |s| <==> OneToOne(s, f)
  {
    if s != {} {
      var x :| x in s;
      ImageOfOneMore(s, f, x);
      ImageSize(s - {x}, f);
      if f(x) in Image(s - {x}, f) {
        var y :| y in s - {x} && f(y) == f(x);
        assert !OneToOne(s, f);
      } else if OneToOne(s - {x}, f) {
        forall a, b | a in s && b in s && f(a) == f(b) ensures a == b {
          assert a in s - {x} ==> f(a) in Image(s - {x}, f);
          assert b in s - {x} ==> f(b) in Image(s - {x}, f);
        }
      }
    }
  }

  /** Maps with the same entries are the same. */
  lemma SameItems<K, V>(a: map<K, V>, b: map<K, V>)
    requires a.Items == b.Items
    ensures a == b
  {
    ItemsWithin(a, b);
    ItemsWithin(b, a);
  }

  lemma ItemsWithin<K, V>(a: map<K, V>, b: map<K, V>)
    requires a.Items == b.Items
    ensures forall id :: id in a ==> id in b && b[id] == a[id]
  {
    forall id | id in a ensures id in b && b[id] == a[id] {
      assert (id, a[id]) in a.Items;
    }
  }

  /** A listing of all entries is empty exactly when the map is. */
  lemma NoItemsIff<K, V>(listing: seq<(K, V)>, a: map<K, V>)
    requires Elements(listing) == a.Items
    ensures listing == [] <==> a == map[]
  {
    if listing != [] {
      assert listing[0] in a.Items;
    }
    if id :| id in a {
      assert (id, a[id]) in a.Items;
    }
  }
}

/** Sorted listings of finite sets: what Python's `sorted` and SQL's ORDER BY return. */
module Listing {

  /** `less` orders the elements of `S` strictly and totally. */
  ghost predicate Orders<T(!new)>(less: (T, T) -> bool, S: set<T>) {
    && (forall a :: a in S ==> !less(a, a))
    && (forall a, b :: a in S && b in S && a != b ==> less(a, b) || less(b, a))
    && (forall a, b, c :: a in S && b in S && c in S && less(a, b) && less(b, c) ==> less(a, c))
  }

  /** `s` lists every element of `S` once, in order. */
  ghost predicate IsListing<T(!new)>(s: seq<T>, S: set<T>, less: (T, T) -> bool) {
    && (forall x :: x in s <==> x in S)
    && (forall i, j :: 0 <= i < j < |s| ==> less(s[i], s[j]))
  }

  lemma TailListing<T(!new)>(s: seq<T>, S: set<T>, less: (T, T) -> bool)
    requires Orders(less, S) && IsListing(s, S, less) && s != []
    ensures s[0] in S && IsListing(s[1..], S - {s[0]}, less)
  {
    forall x ensures x in s[1..] <==> x in S - {s[0]} {
      if x in s[1..] {
        var j :| 0 <= j < |s[1..]| && s[1..][j] == x;
        assert less(s[0], s[j + 1]);
        assert x in s;
      }
      if x in S - {s[0]} {
        var j :| 0 <= j < |s| && s[j] == x;
        assert s[1..][j - 1] == x;
      }
    }
  }

  lemma {:induction false} ListingSize<T(!new)>(s: seq<T>, S: set<T>, less: (T, T) -> bool)
    requires Orders(less, S) && IsListing(s, S, less)
    ensures |s| == |S|
  {
    if s == [] {
      assert S == {};
    } else {
      TailListing(s, S, less);
      ListingSize(s[1..], S - {s[0]}, less);
    }
  }

  /** A set has only one listing. */
  lemma {:induction false} ListingUnique<T(!new)>(s: seq<T>, t: seq<T>, S: set<T>, less: (T, T) -> bool)
    requires Orders(less, S) && IsListing(s, S, less) && IsListing(t, S, less)
    ensures s == t
  {
    ListingSize(s, S, less);
    ListingSize(t, S, less);
    if s != [] {
      var a, b := s[0], t[0];
      assert a in S && b in S;
      assert a == b || less(b, a) by { var j :| 0 <= j < |t| && t[j] == a; }
      assert b == a || less(a, b) by { var j :| 0 <= j < |s| && s[j] == b; }
      TailListing(s, S, less);
      TailListing(t, S, less);
      ListingUnique(s[1..], t[1..], S - {a}, less);
      assert s == [a] + s[1..] && t == [b] + t[1..];
    }
  }

  /** Inserts `x` at its place in a sorted sequence. */
  method Insert<T(!new)>(s: seq<T>, ghost S: set<T>, x: T, less: (T, T) -> bool) returns (r: seq<T>)
    requires Orders(less, S + {x}) && IsListing(s, S, less) && x !in S
    ensures IsListing(r, S + {x}, less)
  {
    var k := 0;
    while k < |s| && less(s[k], x)
      invariant 0 <= k <= |s|
      invariant forall i :: 0 <= i < k ==> less(s[i], x)
    {
      k := k + 1;
    }
    r := s[..k] + [x] + s[k..];
    forall i | k <= i < |s| ensures less(x, s[i]) {
      assert s[i] in S && s[k] in S;
    }
    forall y ensures y in r <==> y in S + {x} {
      assert y in r <==> y in s[..k] || y == x || y in s[k..];
      assert y in s <==> y in s[..k] || y in s[k..] by { assert s == s[..k] + s[k..]; }
    }
  }

  /** Lists a set in order. */
  method List<T(!new,==)>(S: set<T>, less: (T, T) -> bool) returns (s: seq<T>)
    requires Orders(less, S)
    ensures IsListing(s, S, less)
  {
    s := [];
    var pending := S;
    while pending != {}
      invariant pending <= S
      invariant IsListing(s, S - pending, less)
      decreases pending
    {
      var x :| x in pending;
      assert S - (pending - {x}) == (S - pending) + {x};
      s := Insert(s, S - pending, x, less);
      pending := pending - {x};
    }
    assert S - pending == S;
  }

  function Take<T>(s: seq<T>, limit: nat): seq<T> {
    if |s| <= limit then s else s[..limit]
  }
}

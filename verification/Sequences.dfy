// Selections, images and permutations of sequences.
module Sequences {

  ghost predicate Permutation<T>(s: seq<T>, t: seq<T>) {
    multiset(s) == multiset(t)
  }

  predicate Distinct<T(==)>(s: seq<T>) {
    forall i, j :: 0 <= i < j < |s| ==> s[i] != s[j]
  }

  function Select<T>(s: seq<T>, keep: T -> bool): seq<T> {
    if s == [] then [] else (if keep(s[0]) then [s[0]] else []) + Select(s[1..], keep)
  }

  function Image<T, U>(s: seq<T>, f: T -> U): (r: seq<U>)
    ensures |r| == |s| && forall i :: 0 <= i < |s| ==> r[i] == f(s[i])
  {
    seq(|s|, i requires 0 <= i < |s| => f(s[i]))
  }

  lemma {:induction false} SelectOfConcat<T>(s: seq<T>, t: seq<T>, keep: T -> bool)
    ensures Select(s + t, keep) == Select(s, keep) + Select(t, keep)
  {
    if s == [] {
      assert s + t == t;
    } else {
      var first := if keep(s[0]) then [s[0]] else [];
      assert (s + t)[0] == s[0] && (s + t)[1..] == s[1..] + t;
      SelectOfConcat(s[1..], t, keep);
      assert Select(s + t, keep) == first + (Select(s[1..], keep) + Select(t, keep));
    }
  }

  lemma {:induction false} SelectMembers<T>(s: seq<T>, keep: T -> bool, x: T)
    ensures x in Select(s, keep) <==> x in s && keep(x)
  {
    if s != [] { SelectMembers(s[1..], keep, x); }
  }

  // A selection keeps any relation between every earlier and every later element.
  lemma {:induction false} SelectKeepsPairs<T(!new)>(s: seq<T>, keep: T -> bool, rel: (T, T) -> bool)
    requires forall i, j :: 0 <= i < j < |s| ==> rel(s[i], s[j])
    ensures forall i, j :: 0 <= i < j < |Select(s, keep)| ==> rel(Select(s, keep)[i], Select(s, keep)[j])
  {
    if s != [] {
      var rest := Select(s[1..], keep);
      SelectKeepsPairs(s[1..], keep, rel);
      forall j | 0 <= j < |rest| ensures rel(s[0], rest[j]) {
        SelectMembers(s[1..], keep, rest[j]);
        var k :| 0 <= k < |s| - 1 && s[1..][k] == rest[j];
        assert rel(s[0], s[k + 1]);
      }
    }
  }

  lemma ImageOfConcat<T, U>(s: seq<T>, t: seq<T>, f: T -> U)
    ensures Image(s + t, f) == Image(s, f) + Image(t, f)
  {
  }

  lemma Extract<T>(t: seq<T>, x: T) returns (k: nat)
    requires x in t
    ensures k < |t| && t == t[..k] + [x] + t[k + 1..]
    ensures multiset(t[..k] + t[k + 1..]) == multiset(t) - multiset{x}
  {
    k :| 0 <= k < |t| && t[k] == x;
    assert t == t[..k] + [x] + t[k + 1..];
  }

  lemma {:induction false} ImageOfPermutation<T, U>(s: seq<T>, t: seq<T>, f: T -> U)
    requires Permutation(s, t)
    ensures Permutation(Image(s, f), Image(t, f))
    decreases |s|
  {
    assert |s| == |multiset(s)| == |multiset(t)| == |t|;
    if s != [] {
      assert s[0] in multiset(t);
      var k := Extract(t, s[0]);
      var head, tail := t[..k], t[k + 1..];
      assert s == [s[0]] + s[1..];
      assert multiset(s[1..]) == multiset(s) - multiset{s[0]};
      ImageOfPermutation(s[1..], head + tail, f);
      ImageOfConcat([s[0]], s[1..], f);
      ImageOfConcat(head, tail, f);
      ImageOfConcat(head, [s[0]], f);
      ImageOfConcat(head + [s[0]], tail, f);
    }
  }

  lemma {:induction false} SelectOfPermutation<T>(s: seq<T>, t: seq<T>, keep: T -> bool)
    requires Permutation(s, t)
    ensures Permutation(Select(s, keep), Select(t, keep))
    decreases |s|
  {
    assert |s| == |multiset(s)| == |multiset(t)| == |t|;
    if s != [] {
      assert s[0] in multiset(t);
      var k := Extract(t, s[0]);
      var head, tail := t[..k], t[k + 1..];
      assert s == [s[0]] + s[1..];
      assert multiset(s[1..]) == multiset(s) - multiset{s[0]};
      SelectOfPermutation(s[1..], head + tail, keep);
      SelectOfConcat([s[0]], s[1..], keep);
      SelectOfConcat(head, tail, keep);
      SelectOfConcat(head, [s[0]], keep);
      SelectOfConcat(head + [s[0]], tail, keep);
    }
  }

  lemma {:induction false} DistinctByCounts<T>(s: seq<T>)
    ensures Distinct(s) <==> forall x :: multiset(s)[x] <= 1
  {
    if s != [] {
      DistinctByCounts(s[1..]);
      assert s == [s[0]] + s[1..];
      assert multiset(s) == multiset{s[0]} + multiset(s[1..]);
      if Distinct(s) {
        assert s[0] !in s[1..];
        assert Distinct(s[1..]);
      } else if Distinct(s[1..]) {
        assert s[0] in s[1..];
        assert multiset(s)[s[0]] > 1;
      } else {
        var x :| multiset(s[1..])[x] > 1;
        assert multiset(s)[x] > 1;
      }
    }
  }

  lemma DistinctOfPermutation<T>(s: seq<T>, t: seq<T>)
    requires Permutation(s, t) && Distinct(s)
    ensures Distinct(t)
  {
    DistinctByCounts(s);
    DistinctByCounts(t);
  }

  // As many different elements, each found in the other sequence: the sequences are permutations.
  lemma {:induction false} DistinctSublistIsPermutation<T>(s: seq<T>, t: seq<T>)
    requires |s| == |t| && Distinct(s)
    requires forall x :: x in s ==> x in t
    ensures Permutation(s, t)
    decreases |s|
  {
    if s != [] {
      assert s[0] in s;
      var k := Extract(t, s[0]);
      var rest := t[..k] + t[k + 1..];
      forall x | x in s[1..] ensures x in rest {
        var i :| 1 <= i < |s| && s[i] == x;
        assert s[0] != s[i] && x in t;
      }
      DistinctSublistIsPermutation(s[1..], rest);
      assert s == [s[0]] + s[1..];
    }
  }

  // A reflexive and transitive relation between neighbours holds between any earlier and any later element.
  lemma {:induction false} NeighboursChain<T(!new)>(s: seq<T>, rel: (T, T) -> bool, i: nat, j: nat)
    requires i <= j < |s|
    requires forall x :: rel(x, x)
    requires forall x, y, z :: rel(x, y) && rel(y, z) ==> rel(x, z)
    requires forall k :: 0 <= k < |s| - 1 ==> rel(s[k], s[k + 1])
    ensures rel(s[i], s[j])
    decreases j - i
  {
    if i < j {
      NeighboursChain(s, rel, i, j - 1);
      assert rel(s[j - 1], s[j - 1 + 1]);
    }
  }

  lemma DistinctHead<T>(x: T, rest: seq<T>)
    ensures Distinct([x] + rest) <==> Distinct(rest) && x !in rest
  {
    DistinctByCounts([x] + rest);
    DistinctByCounts(rest);
    assert multiset([x] + rest) == multiset{x} + multiset(rest);
    if Distinct([x] + rest) {
      assert multiset([x] + rest)[x] <= 1;
      forall y ensures multiset(rest)[y] <= 1 { assert multiset([x] + rest)[y] <= 1; }
    }
  }

  lemma DistinctCons<T, U>(x: T, rest: seq<T>, f: T -> U)
    ensures Distinct(Image([x] + rest, f)) <==> Distinct(Image(rest, f)) && forall y :: y in rest ==> f(y) != f(x)
  {
    var images := Image(rest, f);
    assert Image([x] + rest, f) == [f(x)] + images;
    DistinctHead(f(x), images);
    if y :| y in rest && f(y) == f(x) {
      var k :| 0 <= k < |rest| && rest[k] == y;
      assert images[k] == f(x);
    }
    if f(x) in images {
      var k :| 0 <= k < |images| && images[k] == f(x);
      assert rest[k] in rest;
    }
  }

  // The places of a list of length n.
  ghost function PlacesBelow(n: nat): (all: set<nat>)
    ensures |all| == n && forall i: nat :: i in all <==> i < n
  {
    if n == 0 then {} else PlacesBelow(n - 1) + {n - 1}
  }

  lemma SubsetSize<T>(a: set<T>, b: set<T>)
    requires a <= b
    ensures |a| <= |b| && (|a| == |b| ==> a == b)
  {
    assert b == a + (b - a);
    assert |b| == |a| + |b - a|;
  }
}

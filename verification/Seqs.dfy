/** Sequences of request numbers: deletion, duplicate-freedom and strict order. */
module Seqs {

  /** `s` without its occurrences of `x`. */
  function Remove(s: seq<nat>, x: nat): seq<nat> {
    if s == [] then []
    else if s[0] == x then Remove(s[1..], x)
    else [s[0]] + Remove(s[1..], x)
  }

  /** The pair of positions a caller asks `NoDup` or `Sorted` about. */
  predicate Before(i: int, j: int) {
    i < j
  }

  ghost predicate NoDup(s: seq<nat>) {
    forall i, j {:trigger Before(i, j)} :: 0 <= i && Before(i, j) && j < |s| ==> s[i] != s[j]
  }

  ghost predicate Sorted(s: seq<nat>) {
    forall i, j {:trigger Before(i, j)} :: 0 <= i && Before(i, j) && j < |s| ==> s[i] < s[j]
  }

  lemma {:induction false} RemoveAbsent(s: seq<nat>, x: nat)
    requires x !in s
    ensures Remove(s, x) == s
  {
    if s != [] {
      RemoveAbsent(s[1..], x);
    }
  }

  lemma {:induction false} RemoveAt(a: seq<nat>, x: nat, b: seq<nat>)
    requires x !in a && x !in b
    ensures Remove(a + [x] + b, x) == a + b
  {
    var s := a + [x] + b;
    if a == [] {
      assert s[1..] == b;
      RemoveAbsent(b, x);
      assert a + b == b;
    } else {
      assert s[0] == a[0];
      assert s[1..] == a[1..] + [x] + b;
      RemoveAt(a[1..], x, b);
      assert [a[0]] + (a[1..] + b) == a + b;
    }
  }

  lemma {:induction false} RemoveMembers(s: seq<nat>, x: nat)
    ensures forall y :: y in Remove(s, x) <==> y in s && y != x
  {
    if s != [] {
      RemoveMembers(s[1..], x);
      assert s == [s[0]] + s[1..];
      assert forall y :: y in s <==> y == s[0] || y in s[1..];
      if s[0] != x {
        assert forall y :: y in [s[0]] + Remove(s[1..], x) <==> y == s[0] || y in Remove(s[1..], x);
      }
    }
  }

  lemma {:induction false} RemoveAppend(s: seq<nat>, t: seq<nat>, x: nat)
    ensures Remove(s + t, x) == Remove(s, x) + Remove(t, x)
  {
    if s == [] {
      assert s + t == t;
    } else {
      assert (s + t)[1..] == s[1..] + t;
      RemoveAppend(s[1..], t, x);
    }
  }

  lemma NoDupTail(s: seq<nat>)
    requires NoDup(s) && s != []
    ensures NoDup(s[1..]) && s[0] !in s[1..]
  {
    var r := s[1..];
    forall i, j | 0 <= i && Before(i, j) && j < |r| ensures r[i] != r[j] {
      assert Before(i + 1, j + 1);
    }
    forall k | 0 <= k < |r| ensures r[k] != s[0] {
      assert Before(0, k + 1);
    }
  }

  lemma NoDupCons(x: nat, s: seq<nat>)
    requires NoDup(s) && x !in s
    ensures NoDup([x] + s)
  {
    forall i, j | 0 <= i && Before(i, j) && j < |[x] + s| ensures ([x] + s)[i] != ([x] + s)[j] {
      assert Before(i - 1, j - 1);
    }
  }

  lemma SortedTail(s: seq<nat>)
    requires Sorted(s) && s != []
    ensures Sorted(s[1..]) && forall y :: y in s[1..] ==> s[0] < y
  {
    var r := s[1..];
    forall i, j | 0 <= i && Before(i, j) && j < |r| ensures r[i] < r[j] {
      assert Before(i + 1, j + 1);
    }
    forall k | 0 <= k < |r| ensures s[0] < r[k] {
      assert Before(0, k + 1);
    }
  }

  lemma SortedCons(x: nat, s: seq<nat>)
    requires Sorted(s) && forall y :: y in s ==> x < y
    ensures Sorted([x] + s)
  {
    forall i, j | 0 <= i && Before(i, j) && j < |[x] + s| ensures ([x] + s)[i] < ([x] + s)[j] {
      assert Before(i - 1, j - 1);
      assert s[j - 1] in s;
    }
  }

  lemma NoDupSnoc(s: seq<nat>, x: nat)
    requires NoDup(s) && x !in s
    ensures NoDup(s + [x])
  {
    forall i, j | 0 <= i && Before(i, j) && j < |s + [x]| ensures (s + [x])[i] != (s + [x])[j] {
      assert s[i] in s;
    }
  }

  lemma {:induction false} RemoveNoDup(s: seq<nat>, x: nat)
    requires NoDup(s)
    ensures NoDup(Remove(s, x))
  {
    if s != [] {
      NoDupTail(s);
      RemoveNoDup(s[1..], x);
      RemoveMembers(s[1..], x);
      NoDupCons(s[0], Remove(s[1..], x));
    }
  }

  lemma {:induction false} RemoveSorted(s: seq<nat>, x: nat)
    requires Sorted(s)
    ensures Sorted(Remove(s, x))
  {
    if s != [] {
      SortedTail(s);
      RemoveSorted(s[1..], x);
      RemoveMembers(s[1..], x);
      SortedCons(s[0], Remove(s[1..], x));
    }
  }

  /** The place of a member of a sequence without duplicates. */
  lemma SplitAt(s: seq<nat>, k: nat)
    requires NoDup(s) && k < |s|
    ensures s == s[..k] + [s[k]] + s[k + 1..]
    ensures s[k] !in s[..k] && s[k] !in s[k + 1..]
    ensures Remove(s, s[k]) == s[..k] + s[k + 1..]
  {
    var a, b := s[..k], s[k + 1..];
    assert s == a + [s[k]] + b;
    forall i | 0 <= i < |a| ensures a[i] != s[k] {
      assert Before(i, k);
    }
    forall i | 0 <= i < |b| ensures b[i] != s[k] {
      assert Before(k, k + 1 + i);
    }
    RemoveAt(a, s[k], b);
  }

  lemma SortedNoDup(s: seq<nat>)
    requires Sorted(s)
    ensures NoDup(s)
  {
  }

  lemma SortedParts(a: seq<nat>, b: seq<nat>)
    requires Sorted(a + b)
    ensures Sorted(a) && Sorted(b)
    ensures forall x, y :: x in a && y in b ==> x < y
  {
    var s := a + b;
    forall i, j | 0 <= i && Before(i, j) && j < |a| ensures a[i] < a[j] {
      assert a[i] == s[i] && a[j] == s[j];
    }
    forall i, j | 0 <= i && Before(i, j) && j < |b| ensures b[i] < b[j] {
      assert Before(|a| + i, |a| + j);
      assert b[i] == s[|a| + i] && b[j] == s[|a| + j];
    }
    forall x, y | x in a && y in b ensures x < y {
      var i :| 0 <= i < |a| && a[i] == x;
      var j :| 0 <= j < |b| && b[j] == y;
      assert Before(i, |a| + j);
      assert s[i] == x && s[|a| + j] == y;
    }
  }

  lemma SortedSnoc(s: seq<nat>, x: nat)
    requires Sorted(s) && forall y :: y in s ==> y < x
    ensures Sorted(s + [x])
  {
    forall i, j | 0 <= i && Before(i, j) && j < |s + [x]| ensures (s + [x])[i] < (s + [x])[j] {
      assert s[i] in s;
    }
  }

  /** The head of a sorted sequence comes before every other member. */
  lemma SortedHead(s: seq<nat>, z: nat)
    requires Sorted(s) && z in s
    ensures s[0] <= z && (z != s[0] ==> s[0] < z)
  {
    var j :| 0 <= j < |s| && s[j] == z;
    assert Before(0, j) || j == 0;
  }
}

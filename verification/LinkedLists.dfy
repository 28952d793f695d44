/** The intrusive circular doubly linked list of `list.h`, on the heap. */
module LinkedLists {

  class Node {
    var prev: Node?
    var next: Node?
    /** `list_entry`: the request this node is embedded in; a list head belongs to none. */
    const entry: nat
    const head: bool

    /** A fresh node with `INIT_LIST_HEAD` applied. */
    constructor (entry: nat, head: bool)
      ensures this.entry == entry && this.head == head
      ensures next == this && prev == this
    {
      this.entry := entry;
      this.head := head;
      prev := this;
      next := this;
    }
  }

  ghost predicate AllDistinct(c: seq<Node>) {
    forall i, j :: 0 <= i < j < |c| ==> c[i] != c[j]
  }

  /** Node `j` of the ring comes right after node `i`, in both directions. */
  ghost predicate Joined(c: seq<Node>, i: int, j: int)
    reads c
  {
    0 <= i < |c| && 0 <= j < |c| && c[i].next == c[j] && c[j].prev == c[i]
  }

  /** The position after `i` in a ring of `n` nodes. */
  function NextOf(i: int, n: int): int {
    if i == n - 1 then 0 else i + 1
  }

  /** The nodes of `c`, in this order, are linked into one ring, in both directions. */
  ghost predicate Round(c: seq<Node>)
    reads c
  {
    && AllDistinct(c)
    && forall i, j {:trigger Joined(c, i, j)} :: 0 <= i < |c| && j == NextOf(i, |c|) ==> Joined(c, i, j)
  }

  /** Mentioning `Peek` shows the links behind `Cycle`; clients that only carry rings along do not. */
  predicate Peek(u: int) {
    true
  }

  /** `c` is a well-formed ring. */
  ghost predicate Cycle(c: seq<Node>)
    reads c
  {
    forall u {:trigger Peek(u)} :: Peek(u) ==> Round(c)
  }

  /** A node linked to itself is a ring of its own. */
  lemma Alone(x: Node)
    requires x.next == x && x.prev == x
    ensures Cycle([x])
  {
    assert [x][0] == x;
  }

  /** A ring none of whose links changed is still a ring. */
  twostate lemma CycleKept(c: seq<Node>)
    requires old(Cycle(c))
    requires forall i :: 0 <= i < |c| ==> c[i].next == old(c[i].next) && c[i].prev == old(c[i].prev)
    ensures Cycle(c)
  {
    assert Peek(0);
    forall i, j | 0 <= i < |c| && j == NextOf(i, |c|) ensures Joined(c, i, j) {
      assert old(Joined(c, i, j));
    }
  }

  ghost predicate Disjoint(c: seq<Node>, d: seq<Node>) {
    forall x :: x in c ==> x !in d
  }

  /** `r` is a ring that shares no node with `c`. */
  ghost predicate Elsewhere(r: seq<Node>, c: seq<Node>)
    reads r
  {
    Cycle(r) && Disjoint(r, c)
  }

  /** `__list_add`. */
  method ListAdd(new': Node, prev: Node, next: Node)
    requires new' != prev && new' != next
    modifies new', prev, next
    ensures prev.next == new' && new'.next == next && next.prev == new' && new'.prev == prev
    ensures prev != next ==> prev.prev == old(prev.prev) && next.next == old(next.next)
  {
    next.prev := new';
    new'.next := next;
    new'.prev := prev;
    prev.next := new';
  }

  /** `list_add_tail` on the ring that starts at its head; every other ring is left alone. */
  method ListAddTail(new': Node, head: Node, ghost c: seq<Node>, ghost others: set<seq<Node>>)
    requires c != [] && c[0] == head && Cycle(c) && new' !in c
    requires forall r :: r in others ==> Elsewhere(r, c) && new' !in r
    modifies new', c
    ensures Cycle(c + [new'])
    ensures forall r :: r in others ==> Cycle(r)
  {
    LastBeforeFirst(c);
    ListAdd(new', head.prev, head);
    Longer(c + [new']);
    forall r | r in others ensures Cycle(r) {
      assert forall i :: 0 <= i < |r| ==> r[i] in r && r[i] !in c;
      CycleKept(r);
    }
  }

  lemma LastBeforeFirst(c: seq<Node>)
    requires c != [] && Cycle(c)
    ensures Joined(c, |c| - 1, 0) && AllDistinct(c)
  {
    assert Peek(0);
    assert Joined(c, |c| - 1, 0);
  }

  /** A ring opened between its last and its first node, and closed over one more. */
  twostate lemma Longer(d: seq<Node>)
    requires |d| > 1 && old(Cycle(d[..|d| - 1])) && d[|d| - 1] !in d[..|d| - 1]
    requires Joined(d, |d| - 2, |d| - 1) && Joined(d, |d| - 1, 0)
    requires forall i :: 0 <= i < |d| - 2 ==> d[i].next == old(d[i].next)
    requires forall i :: 0 < i < |d| - 1 ==> d[i].prev == old(d[i].prev)
    ensures Cycle(d)
  {
    assert Peek(0);
    var c := d[..|d| - 1];
    forall i, j | 0 <= i < |d| && j == NextOf(i, |d|) ensures Joined(d, i, j) {
      if i < |d| - 2 {
        assert old(Joined(c, i, j));
        assert c[i] == d[i] && c[j] == d[j];
      }
    }
    forall i, j | 0 <= i < j < |d| ensures d[i] != d[j] {
      assert i < |c| && c[i] == d[i] && d[i] in c;
      assert j < |c| ==> c[j] == d[j];
    }
  }

  /** `list_del` of a node of a ring, given only the node; alone in its ring included. */
  method ListDel(entry: Node, ghost c: seq<Node>, ghost k: nat, ghost others: set<seq<Node>>)
    requires k < |c| && c[k] == entry && Cycle(c)
    requires forall r :: r in others ==> Elsewhere(r, c)
    modifies c
    ensures Cycle(c[..k] + c[k + 1..])
    ensures entry.next == null && entry.prev == null
    ensures forall r :: r in others ==> Cycle(r)
  {
    ghost var s := Spot(c, k, if k == 0 then |c| - 1 else k - 1, if k == |c| - 1 then 0 else k + 1);
    Unlink(entry, s);
    Closed(s);
    forall r | r in others ensures Cycle(r) {
      assert forall i :: 0 <= i < |r| ==> r[i] in r && r[i] !in c;
      CycleKept(r);
    }
  }

  /** Position `k` of the ring `c`, with the positions before and after it. */
  datatype Spot = Spot(c: seq<Node>, k: nat, p: nat, n: nat) {
    ghost predicate Valid() {
      && k < |c| && p < |c| && n < |c|
      && p == (if k == 0 then |c| - 1 else k - 1) && n == if k == |c| - 1 then 0 else k + 1
    }
  }

  /** The assignments of `list_del`, for a node and its two neighbours. */
  method Bypass(entry: Node, ghost before: Node, ghost after: Node)
    requires entry.prev == before && entry.next == after && (before == entry <==> after == entry)
    modifies entry, before, after
    ensures entry.next == null && entry.prev == null
    ensures before != entry ==> before.next == after && after.prev == before
    ensures before != entry && before != after ==> before.prev == old(before.prev) && after.next == old(after.next)
  {
    entry.next.prev := entry.prev;
    entry.prev.next := entry.next;
    entry.next := null;
    entry.prev := null;
  }

  /** The neighbours of the node are linked to each other and no other link has changed. */
  twostate predicate Bypassed(s: Spot)
    requires s.Valid()
    reads s.c
  {
    && (|s.c| > 1 ==> s.c[s.p].next == s.c[s.n] && s.c[s.n].prev == s.c[s.p])
    && (forall i :: 0 <= i < |s.c| && i != s.k && i != s.p ==> s.c[i].next == old(s.c[i].next))
    && (forall i :: 0 <= i < |s.c| && i != s.k && i != s.n ==> s.c[i].prev == old(s.c[i].prev))
  }

  /** In a ring only the links around the unlinked node change. */
  method Unlink(entry: Node, ghost s: Spot)
    requires s.Valid() && s.c[s.k] == entry && Cycle(s.c)
    modifies s.c
    ensures entry.next == null && entry.prev == null
    ensures Bypassed(s)
  {
    Neighbours(s);
    Bypass(entry, s.c[s.p], s.c[s.n]);
  }

  lemma Neighbours(s: Spot)
    requires s.Valid() && Cycle(s.c)
    ensures s.c[s.k].prev == s.c[s.p] && s.c[s.k].next == s.c[s.n] && AllDistinct(s.c)
  {
    assert Peek(0);
    assert Joined(s.c, s.p, s.k) && Joined(s.c, s.k, s.n);
  }

  /** A ring whose node has been bypassed in both directions is a ring without it. */
  twostate lemma Closed(s: Spot)
    requires s.Valid() && old(Cycle(s.c)) && Bypassed(s)
    ensures Cycle(s.c[..s.k] + s.c[s.k + 1..])
  {
    assert Peek(0);
    var d := s.c[..s.k] + s.c[s.k + 1..];
    forall i, j | 0 <= i < |d| && j == NextOf(i, |d|) ensures Joined(d, i, j) {
      var a, b := if i < s.k then i else i + 1, if j < s.k then j else j + 1;
      assert d[i] == s.c[a] && d[j] == s.c[b];
      assert a != s.p ==> old(Joined(s.c, a, b));
    }
    StillDistinct(s.c, s.k);
  }

  lemma StillDistinct(c: seq<Node>, k: nat)
    requires k < |c| && AllDistinct(c)
    ensures AllDistinct(c[..k] + c[k + 1..])
  {
    var d := c[..k] + c[k + 1..];
    forall i, j | 0 <= i < j < |d| ensures d[i] != d[j] {
      assert d[i] == c[if i < k then i else i + 1] && d[j] == c[if j < k then j else j + 1];
    }
  }

  /** `list_empty`. */
  method ListEmpty(head: Node, ghost c: seq<Node>) returns (empty: bool)
    requires c != [] && c[0] == head && Cycle(c)
    ensures empty <==> c == [head]
  {
    assert Peek(0);
    assert Joined(c, 0, NextOf(0, |c|));
    empty := head.next == head;
  }

  /** `list_size`: the loop visits each node once and ends at the head. */
  method ListSize(head: Node, ghost c: seq<Node>) returns (s: nat)
    requires c != [] && c[0] == head && Cycle(c)
    ensures s == |c| - 1
  {
    assert Peek(0);
    assert Joined(c, 0, NextOf(0, |c|));
    s := 0;
    var p := head.next;
    while p != head
      invariant 0 <= s < |c|
      invariant p == if s + 1 < |c| then c[s + 1] else head
      decreases |c| - s
    {
      assert Joined(c, s + 1, NextOf(s + 1, |c|));
      s := s + 1;
      p := p.next;
    }
  }

  /** `list_del` and `list_add_tail` in a row: the node changes rings. */
  method Splice(node: Node, ghost c: seq<Node>, ghost k: nat, head: Node, ghost d: seq<Node>,
                ghost others: set<seq<Node>>)
    requires k < |c| && c[k] == node && Cycle(c)
    requires d != [] && d[0] == head && Elsewhere(d, c)
    requires forall r :: r in others ==> Elsewhere(r, c) && Disjoint(r, d)
    modifies c, d
    ensures Cycle(c[..k] + c[k + 1..]) && Cycle(d + [node])
    ensures forall r :: r in others ==> Cycle(r)
  {
    ghost var c' := c[..k] + c[k + 1..];
    assert node in c;
    assert node !in c' by {
      assert Peek(0);
      assert AllDistinct(c);
    }
    assert forall x :: x in c' ==> x in c;
    ListDel(node, c, k, others + {d});
    assert d in others + {d};
    forall r | r in others + {c'} ensures Elsewhere(r, d) && node !in r {
      assert r in others ==> Disjoint(r, c);
      assert r in others ==> r in others + {d};
    }
    ListAddTail(node, head, d, others + {c'});
    assert c' in others + {c'};
    assert forall r :: r in others ==> r in others + {c'};
  }
}

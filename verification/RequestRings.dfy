/** The helper's seven lists as intrusive rings on the heap: `all_reqs` and one ring for each stage.  Each
    request has a node in `all_reqs` and a node in the ring of its stage; linking, relinking and unlinking
    them keeps all seven rings well formed. */
module RequestRings {
  import opened Options
  import opened Seqs
  import opened LinkedLists
  import opened HelperModel
  import opened HelperInvariants

  /** The list heads `init_reqs`, `memdone_reqs`, ..., `done_reqs` and `all_reqs`. */
  datatype Heads = Heads(
    init: Node, memdone: Node, prepared: Node, running: Node, postExec: Node, done: Node, all: Node)
  {
    function At(st: Stage): Node {
      match st
      case Init => init
      case MemDone => memdone
      case Prepared => prepared
      case Running => running
      case PostExec => postExec
      case Done => done
    }

    ghost predicate Apart() {
      && (forall st: Stage :: At(st).head)
      && all.head
      && (forall st: Stage, q: Stage :: st != q ==> At(st) != At(q))
      && (forall st: Stage :: At(st) != all)
    }
  }

  /** The nodes of each ring in order, its head first. */
  datatype Rings = Rings(
    init: seq<Node>, memdone: seq<Node>, prepared: seq<Node>, running: seq<Node>, postExec: seq<Node>,
    done: seq<Node>, all: seq<Node>)
  {
    function At(st: Stage): seq<Node> {
      match st
      case Init => init
      case MemDone => memdone
      case Prepared => prepared
      case Running => running
      case PostExec => postExec
      case Done => done
    }

    function With(st: Stage, c: seq<Node>): Rings {
      match st
      case Init => this.(init := c)
      case MemDone => this.(memdone := c)
      case Prepared => this.(prepared := c)
      case Running => this.(running := c)
      case PostExec => this.(postExec := c)
      case Done => this.(done := c)
    }
  }

  lemma RingWithAt(rs: Rings, st: Stage, c: seq<Node>, q: Stage)
    ensures rs.With(st, c).At(q) == if q == st then c else rs.At(q)
    ensures rs.With(st, c).all == rs.all
  {
  }

  /** Each node is embedded in the request that names it. */
  ghost predicate Embedded(m: map<nat, Node>) {
    forall e: nat :: e in m ==> m[e].entry == e && !m[e].head
  }

  ghost predicate IsChain(c: seq<Node>, h: Node, m: map<nat, Node>, s: seq<nat>) {
    && |c| == |s| + 1 && c[0] == h
    && forall j :: 0 <= j < |s| ==> s[j] in m && c[j + 1] == m[s[j]]
  }

  /** `c` is the head `h` followed by the nodes of the requests `s`. */
  ghost predicate Chain(c: seq<Node>, h: Node, m: map<nat, Node>, s: seq<nat>) {
    forall u {:trigger Peek(u)} :: Peek(u) ==> IsChain(c, h, m, s)
  }

  lemma ChainIndex(c: seq<Node>, h: Node, m: map<nat, Node>, s: seq<nat>, k: nat)
    requires Chain(c, h, m, s) && k < |s|
    ensures |c| == |s| + 1 && c[0] == h && s[k] in m && c[k + 1] == m[s[k]]
  {
    assert Peek(0);
  }

  lemma ChainHead(c: seq<Node>, h: Node, m: map<nat, Node>, s: seq<nat>)
    requires Chain(c, h, m, s)
    ensures |c| == |s| + 1 && c[0] == h
  {
    assert Peek(0);
  }

  /** A member of a ring is its head or the node of a listed request. */
  lemma ChainOnly(c: seq<Node>, h: Node, m: map<nat, Node>, s: seq<nat>, x: Node)
    requires Embedded(m) && Chain(c, h, m, s) && x in c
    ensures x == h || (x.entry in s && x.entry in m && m[x.entry] == x)
  {
    assert Peek(0);
    var j :| 0 <= j < |c| && c[j] == x;
    if j > 0 {
      assert s[j - 1] in m && c[(j - 1) + 1] == m[s[j - 1]];
    }
  }

  lemma ChainSnoc(c: seq<Node>, h: Node, m: map<nat, Node>, s: seq<nat>, e: nat)
    requires Chain(c, h, m, s) && e in m
    ensures Chain(c + [m[e]], h, m, s + [e])
  {
    assert Peek(0);
  }

  /** Unlinking the k-th listed request. */
  lemma ChainDrop(c: seq<Node>, h: Node, m: map<nat, Node>, s: seq<nat>, k: nat)
    requires Chain(c, h, m, s) && NoDup(s) && k < |s|
    ensures |c| == |s| + 1
    ensures Chain(c[..k + 1] + c[k + 2..], h, m, Remove(s, s[k]))
  {
    assert Peek(0);
    SplitAt(s, k);
    var t := s[..k] + s[k + 1..];
    var d := c[..k + 1] + c[k + 2..];
    forall j | 0 <= j < |t| ensures t[j] in m && d[j + 1] == m[t[j]] {
      if j < k {
        assert t[j] == s[j] && d[j + 1] == c[j + 1];
      } else {
        assert t[j] == s[j + 1] && d[j + 1] == c[(j + 1) + 1];
      }
    }
  }

  /** Forgetting a request that is not listed. */
  lemma ChainForget(c: seq<Node>, h: Node, m: map<nat, Node>, s: seq<nat>, e: nat)
    requires Chain(c, h, m, s) && e !in s
    ensures Chain(c, h, m - {e}, s)
  {
    assert Peek(0);
    assert forall j :: 0 <= j < |s| ==> s[j] != e;
  }

  lemma ChainExtend(c: seq<Node>, h: Node, m: map<nat, Node>, s: seq<nat>, e: nat, x: Node)
    requires Chain(c, h, m, s) && e !in s
    ensures Chain(c, h, m[e := x], s)
  {
    assert Peek(0);
    assert forall j :: 0 <= j < |s| ==> s[j] != e;
  }

  lemma IndexOf(s: seq<nat>, e: nat) returns (k: nat)
    requires e in s
    ensures k < |s| && s[k] == e
  {
    k :| 0 <= k < |s| && s[k] == e;
  }

  /** Everything about the rings that does not depend on the links. */
  datatype World = World(
    hs: Heads, nodes: map<nat, Node>, gnodes: map<nat, Node>, lists: HelperModel.Lists, all: seq<nat>, rings: Rings)
  {
    ghost predicate Named() {
      && (forall st: Stage :: Chain(rings.At(st), hs.At(st), nodes, lists.At(st)))
      && Chain(rings.all, hs.all, gnodes, all)
    }

    ghost predicate Nodes() {
      && hs.Apart() && nodes.Keys == gnodes.Keys && Embedded(nodes) && Embedded(gnodes)
      && (forall e: nat :: e in nodes ==> nodes[e] != gnodes[e])
    }

    /** No request is on two stage lists, and none twice on one. */
    ghost predicate Separate() {
      && (forall st: Stage :: NoDup(lists.At(st)))
      && (forall st: Stage, q: Stage, e: nat :: e in lists.At(st) && e in lists.At(q) ==> st == q)
    }

    ghost predicate Sound() {
      Named() && Nodes() && Separate()
    }

    /** Mentioning the key of a world opens `Solid` and `Spun` for that world. */
    predicate Key(u: int) {
      true
    }

    /** `Sound`, unfolded only where the key is mentioned. */
    ghost predicate Solid() {
      forall u {:trigger Key(u)} :: Key(u) ==> Sound()
    }

    lemma TwoRings(st: Stage, q: Stage)
      requires Sound() && st != q
      ensures Disjoint(rings.At(st), rings.At(q))
    {
      forall x | x in rings.At(st) ensures x !in rings.At(q) {
        ChainOnly(rings.At(st), hs.At(st), nodes, lists.At(st), x);
        if x in rings.At(q) {
          ChainOnly(rings.At(q), hs.At(q), nodes, lists.At(q), x);
        }
      }
    }

    lemma AllApart(st: Stage)
      requires Sound()
      ensures Disjoint(rings.all, rings.At(st)) && Disjoint(rings.At(st), rings.all)
    {
      forall x | x in rings.At(st) ensures x !in rings.all {
        ChainOnly(rings.At(st), hs.At(st), nodes, lists.At(st), x);
        if x in rings.all {
          ChainOnly(rings.all, hs.all, gnodes, all, x);
        }
      }
    }

    /** The rings other than those of two stages. */
    ghost function Others(from: Stage, dest: Stage): set<seq<Node>> {
      (set st: Stage | st != from && st != dest :: rings.At(st)) + {rings.all}
    }

    lemma OthersApart(from: Stage, dest: Stage, r: seq<Node>)
      requires Sound() && r in Others(from, dest)
      ensures Disjoint(r, rings.At(from)) && Disjoint(r, rings.At(dest))
    {
      if r == rings.all {
        AllApart(from);
        AllApart(dest);
      } else {
        var st: Stage :| st != from && st != dest && r == rings.At(st);
        TwoRings(st, from);
        TwoRings(st, dest);
      }
    }
  }

  ghost predicate Held(c: seq<Node>, repr: set<Node>) {
    forall x :: x in c ==> x in repr
  }

  ghost predicate AllSpun(w: World, repr: set<Node>)
    reads repr
  {
    && (forall st: Stage :: Held(w.rings.At(st), repr) && Cycle(w.rings.At(st)))
    && Held(w.rings.all, repr) && Cycle(w.rings.all)
  }

  /** Every ring is well formed on the heap. */
  ghost predicate Spun(w: World, repr: set<Node>)
    reads repr
  {
    forall u {:trigger w.Key(u)} :: w.Key(u) ==> AllSpun(w, repr)
  }

  // ----- moving a request between stage rings -----

  ghost function Without(c: seq<Node>, k: nat): seq<Node>
    requires k < |c|
  {
    c[..k] + c[k + 1..]
  }

  ghost predicate Place(w: World, i: nat, st: Stage, k: nat) {
    k < |w.lists.At(st)| && w.lists.At(st)[k] == i && |w.rings.At(st)| == |w.lists.At(st)| + 1
  }

  ghost function Moved(w: World, i: nat, from: Stage, dest: Stage, k: nat): World
    requires Place(w, i, from, k) && i in w.nodes
  {
    w.(lists := Relink(w.lists, i, from, dest),
       rings := w.rings.With(from, Without(w.rings.At(from), k + 1)).With(dest, w.rings.At(dest) + [w.nodes[i]]))
  }

  lemma MovedAt(w: World, i: nat, from: Stage, dest: Stage, k: nat, st: Stage)
    requires Place(w, i, from, k) && i in w.nodes && from != dest
    ensures var v := Moved(w, i, from, dest, k);
      && v.rings.At(st) == (if st == from then Without(w.rings.At(from), k + 1)
                            else if st == dest then w.rings.At(dest) + [w.nodes[i]] else w.rings.At(st))
      && v.rings.all == w.rings.all
      && v.lists.At(st) == (if st == from then Remove(w.lists.At(from), i)
                            else if st == dest then w.lists.At(dest) + [i] else w.lists.At(st))
  {
    var s, c := w.lists.At(from), Without(w.rings.At(from), k + 1);
    var off := w.lists.With(from, Remove(s, i));
    WithAt(w.lists, from, Remove(s, i), st);
    WithAt(w.lists, from, Remove(s, i), dest);
    WithAt(off, dest, off.At(dest) + [i], st);
    RingWithAt(w.rings, from, c, st);
    RingWithAt(w.rings, from, c, dest);
    RingWithAt(w.rings.With(from, c), dest, w.rings.At(dest) + [w.nodes[i]], st);
  }

  lemma MovedNamed(w: World, i: nat, from: Stage, dest: Stage, k: nat)
    requires w.Sound() && Place(w, i, from, k) && i in w.nodes && from != dest
    ensures Moved(w, i, from, dest, k).Named()
  {
    var v := Moved(w, i, from, dest, k);
    forall st: Stage ensures Chain(v.rings.At(st), v.hs.At(st), v.nodes, v.lists.At(st)) {
      MovedAt(w, i, from, dest, k, st);
      if st == from {
        ChainDrop(w.rings.At(from), w.hs.At(from), w.nodes, w.lists.At(from), k);
      } else if st == dest {
        ChainSnoc(w.rings.At(dest), w.hs.At(dest), w.nodes, w.lists.At(dest), i);
      }
    }
    MovedAt(w, i, from, dest, k, from);
  }

  /** `list_del` and `list_add_tail` of the list node of request `i`. */
  method RelinkNode(node: Node, head: Node, ghost w: World, ghost repr: set<Node>,
                    ghost i: nat, ghost from: Stage, ghost dest: Stage, ghost k: nat)
    requires w.Solid() && Spun(w, repr) && Place(w, i, from, k) && i in w.nodes && from != dest
    requires node == w.nodes[i] && head == w.hs.At(dest)
    modifies repr
    ensures Spun(Moved(w, i, from, dest, k), repr)
  {
    assert w.Key(0);
    ghost var c, d := w.rings.At(from), w.rings.At(dest);
    ghost var others := w.Others(from, dest);
    ChainIndex(c, w.hs.At(from), w.nodes, w.lists.At(from), k);
    ChainHead(d, head, w.nodes, w.lists.At(dest));
    AllElsewhere(w, repr, from, dest);
    Splice(node, c, k + 1, head, d, others);
    MovedSpun(w, repr, i, from, dest, k);
  }

  ghost predicate AllHeld(w: World, repr: set<Node>) {
    (forall st: Stage :: Held(w.rings.At(st), repr)) && Held(w.rings.all, repr)
  }

  lemma AllElsewhere(w: World, repr: set<Node>, from: Stage, dest: Stage)
    requires w.Sound() && Spun(w, repr) && from != dest
    ensures AllHeld(w, repr)
    ensures Elsewhere(w.rings.At(dest), w.rings.At(from))
    ensures forall r :: r in w.Others(from, dest) ==>
      Held(r, repr) && Elsewhere(r, w.rings.At(from)) && Disjoint(r, w.rings.At(dest))
  {
    assert w.Key(0);
    w.TwoRings(dest, from);
    forall r | r in w.Others(from, dest)
      ensures Held(r, repr) && Elsewhere(r, w.rings.At(from)) && Disjoint(r, w.rings.At(dest))
    {
      w.OthersApart(from, dest, r);
    }
  }

  lemma HeldParts(c: seq<Node>, d: seq<Node>, k: nat, x: Node, repr: set<Node>)
    requires k < |c| && Held(c, repr) && Held(d, repr) && x in repr
    ensures Held(Without(c, k), repr) && Held(d + [x], repr)
  {
  }

  lemma MovedSpun(w: World, repr: set<Node>, i: nat, from: Stage, dest: Stage, k: nat)
    requires w.Sound() && AllHeld(w, repr) && Place(w, i, from, k) && i in w.nodes && from != dest
    requires Cycle(Without(w.rings.At(from), k + 1)) && Cycle(w.rings.At(dest) + [w.nodes[i]])
    requires forall r :: r in w.Others(from, dest) ==> Cycle(r)
    ensures Spun(Moved(w, i, from, dest, k), repr)
  {
    ChainIndex(w.rings.At(from), w.hs.At(from), w.nodes, w.lists.At(from), k);
    assert w.rings.At(from)[k + 1] in w.rings.At(from);
    HeldParts(w.rings.At(from), w.rings.At(dest), k + 1, w.nodes[i], repr);
    RingsSpun(w, repr, i, from, dest, k);
  }

  lemma RingsSpun(w: World, repr: set<Node>, i: nat, from: Stage, dest: Stage, k: nat)
    requires AllHeld(w, repr) && Place(w, i, from, k) && i in w.nodes && from != dest
    requires Cycle(Without(w.rings.At(from), k + 1)) && Cycle(w.rings.At(dest) + [w.nodes[i]])
    requires Held(Without(w.rings.At(from), k + 1), repr) && Held(w.rings.At(dest) + [w.nodes[i]], repr)
    requires forall r :: r in w.Others(from, dest) ==> Cycle(r)
    ensures Spun(Moved(w, i, from, dest, k), repr)
  {
    var v := Moved(w, i, from, dest, k);
    forall st: Stage ensures Held(v.rings.At(st), repr) && Cycle(v.rings.At(st)) {
      MovedAt(w, i, from, dest, k, st);
      assert st != from && st != dest ==> w.rings.At(st) in w.Others(from, dest);
    }
    MovedAt(w, i, from, dest, k, from);
    assert w.rings.all in w.Others(from, dest);
  }

  // ----- freeing a request -----

  ghost predicate Placed(w: World, i: nat, st: Stage, k: nat, g: nat) {
    && Place(w, i, st, k) && i in w.nodes && i in w.gnodes
    && g < |w.all| && w.all[g] == i && |w.rings.all| == |w.all| + 1
  }

  ghost function Dropped(w: World, i: nat, st: Stage, k: nat, g: nat): World
    requires Placed(w, i, st, k, g)
  {
    w.(lists := w.lists.With(st, Remove(w.lists.At(st), i)), all := Remove(w.all, i),
       nodes := w.nodes - {i}, gnodes := w.gnodes - {i},
       rings := w.rings.With(st, Without(w.rings.At(st), k + 1)).(all := Without(w.rings.all, g + 1)))
  }

  lemma DroppedAt(w: World, i: nat, st: Stage, k: nat, g: nat, q: Stage)
    requires Placed(w, i, st, k, g)
    ensures var v := Dropped(w, i, st, k, g);
      && v.rings.At(q) == (if q == st then Without(w.rings.At(st), k + 1) else w.rings.At(q))
      && v.lists.At(q) == (if q == st then Remove(w.lists.At(st), i) else w.lists.At(q))
  {
    WithAt(w.lists, st, Remove(w.lists.At(st), i), q);
    RingWithAt(w.rings, st, Without(w.rings.At(st), k + 1), q);
  }

  lemma DroppedNamed(w: World, i: nat, st: Stage, k: nat, g: nat)
    requires w.Sound() && Placed(w, i, st, k, g) && NoDup(w.all)
    ensures Dropped(w, i, st, k, g).Named()
  {
    var v := Dropped(w, i, st, k, g);
    forall q: Stage ensures Chain(v.rings.At(q), v.hs.At(q), v.nodes, v.lists.At(q)) {
      DroppedAt(w, i, st, k, g, q);
      if q == st {
        ChainDrop(w.rings.At(st), w.hs.At(st), w.nodes, w.lists.At(st), k);
        RemoveMembers(w.lists.At(st), i);
      }
      ChainForget(v.rings.At(q), w.hs.At(q), w.nodes, v.lists.At(q), i);
    }
    ChainDrop(w.rings.all, w.hs.all, w.gnodes, w.all, g);
    RemoveMembers(w.all, i);
    ChainForget(v.rings.all, w.hs.all, w.gnodes, v.all, i);
  }

  /** The stage rings other than one. */
  ghost function StageRings(w: World, st: Stage): set<seq<Node>> {
    set q: Stage | q != st :: w.rings.At(q)
  }

  lemma StageRingsElsewhere(w: World, repr: set<Node>, st: Stage)
    requires w.Sound() && Spun(w, repr)
    ensures AllHeld(w, repr)
    ensures forall r :: r in StageRings(w, st) + {w.rings.all} ==> Elsewhere(r, w.rings.At(st))
    ensures forall r :: r in StageRings(w, st) ==> Disjoint(r, w.rings.all)
    ensures Disjoint(w.rings.At(st), w.rings.all)
  {
    assert w.Key(0);
    w.AllApart(st);
    forall r | r in StageRings(w, st) ensures Elsewhere(r, w.rings.At(st)) && Disjoint(r, w.rings.all) {
      var q: Stage :| q != st && r == w.rings.At(q);
      w.TwoRings(q, st);
      w.AllApart(q);
    }
  }

  /** `list_del` of the stage node; `all_reqs` and the other stage rings are left alone. */
  method DropStageNode(node: Node, ghost w: World, ghost repr: set<Node>, ghost st: Stage, ghost k: nat)
    requires w.Sound() && Spun(w, repr) && 0 < k < |w.rings.At(st)| && w.rings.At(st)[k] == node
    modifies w.rings.At(st)
    ensures Cycle(w.rings.all)
    ensures forall r :: r in StageRings(w, st) + {Without(w.rings.At(st), k)} ==> Cycle(r)
  {
    ghost var c, rest := w.rings.At(st), StageRings(w, st) + {w.rings.all};
    StageRingsElsewhere(w, repr, st);
    assert Cycle(c) by {
      assert w.Key(0);
    }
    ListDel(node, c, k, rest);
    assert w.rings.all in rest;
    assert forall r :: r in StageRings(w, st) ==> r in rest;
  }

  /** The stage rings, with the node gone from one of them, share no node with `all_reqs`. */
  lemma StagesApartFromAll(w: World, st: Stage, k: nat)
    requires w.Sound() && k < |w.rings.At(st)|
    ensures forall r :: r in StageRings(w, st) + {Without(w.rings.At(st), k)} ==> Disjoint(r, w.rings.all)
  {
    w.AllApart(st);
    forall r | r in StageRings(w, st) ensures Disjoint(r, w.rings.all) {
      var q: Stage :| q != st && r == w.rings.At(q);
      w.AllApart(q);
    }
    assert forall x :: x in Without(w.rings.At(st), k) ==> x in w.rings.At(st);
  }

  /** `list_del` of the other node. */
  method DropAllNode(gnode: Node, ghost w: World, ghost st: Stage, ghost k: nat, ghost g: nat)
    requires w.Sound() && k < |w.rings.At(st)| && g < |w.rings.all| && w.rings.all[g] == gnode && Cycle(w.rings.all)
    requires forall r :: r in StageRings(w, st) + {Without(w.rings.At(st), k)} ==> Cycle(r)
    modifies w.rings.all
    ensures Cycle(Without(w.rings.all, g))
    ensures forall r :: r in StageRings(w, st) + {Without(w.rings.At(st), k)} ==> Cycle(r)
  {
    StagesApartFromAll(w, st, k);
    ListDel(gnode, w.rings.all, g, StageRings(w, st) + {Without(w.rings.At(st), k)});
  }

  /** `list_del` of both nodes of request `i`. */
  method DropNodes(node: Node, gnode: Node, ghost w: World, ghost repr: set<Node>,
                   ghost i: nat, ghost st: Stage, ghost k: nat, ghost g: nat)
    requires w.Solid() && Spun(w, repr) && Placed(w, i, st, k, g)
    requires node == w.nodes[i] && gnode == w.gnodes[i]
    modifies repr
    ensures Spun(Dropped(w, i, st, k, g), repr)
  {
    WhereDropped(w, repr, i, st, k, g);
    DropStageNode(node, w, repr, st, k + 1);
    DropAllNode(gnode, w, st, k + 1, g + 1);
    DroppedSpun(w, repr, i, st, k, g);
  }

  lemma WhereDropped(w: World, repr: set<Node>, i: nat, st: Stage, k: nat, g: nat)
    requires w.Solid() && Spun(w, repr) && Placed(w, i, st, k, g)
    ensures w.Sound() && AllHeld(w, repr)
    ensures w.rings.At(st)[k + 1] == w.nodes[i] && w.rings.all[g + 1] == w.gnodes[i]
  {
    assert w.Key(0);
    ChainIndex(w.rings.At(st), w.hs.At(st), w.nodes, w.lists.At(st), k);
    ChainIndex(w.rings.all, w.hs.all, w.gnodes, w.all, g);
  }

  lemma DroppedSpun(w: World, repr: set<Node>, i: nat, st: Stage, k: nat, g: nat)
    requires w.Sound() && AllHeld(w, repr) && Placed(w, i, st, k, g)
    requires Cycle(Without(w.rings.all, g + 1))
    requires forall r :: r in StageRings(w, st) + {Without(w.rings.At(st), k + 1)} ==> Cycle(r)
    ensures Spun(Dropped(w, i, st, k, g), repr)
  {
    var v := Dropped(w, i, st, k, g);
    var c' := Without(w.rings.At(st), k + 1);
    forall q: Stage ensures Held(v.rings.At(q), repr) && Cycle(v.rings.At(q)) {
      DroppedAt(w, i, st, k, g, q);
      if q == st {
        assert c' in StageRings(w, st) + {c'};
      } else {
        assert w.rings.At(q) in StageRings(w, st) + {c'};
      }
    }
  }

  // ----- linking a new request -----

  ghost predicate Unused(w: World, t: nat, node: Node, gnode: Node) {
    && t !in w.nodes && node.entry == t && gnode.entry == t && !node.head && !gnode.head && node != gnode
    && (forall st: Stage :: t !in w.lists.At(st)) && t !in w.all
  }

  ghost function Added(w: World, t: nat, node: Node, gnode: Node, dest: Stage): World {
    w.(lists := w.lists.With(dest, w.lists.At(dest) + [t]), all := w.all + [t],
       nodes := w.nodes[t := node], gnodes := w.gnodes[t := gnode],
       rings := w.rings.With(dest, w.rings.At(dest) + [node]).(all := w.rings.all + [gnode]))
  }

  lemma AddedAt(w: World, t: nat, node: Node, gnode: Node, dest: Stage, q: Stage)
    ensures var v := Added(w, t, node, gnode, dest);
      && v.rings.At(q) == (if q == dest then w.rings.At(dest) + [node] else w.rings.At(q))
      && v.lists.At(q) == (if q == dest then w.lists.At(dest) + [t] else w.lists.At(q))
  {
    WithAt(w.lists, dest, w.lists.At(dest) + [t], q);
    RingWithAt(w.rings, dest, w.rings.At(dest) + [node], q);
  }

  lemma AddedNamed(w: World, t: nat, node: Node, gnode: Node, dest: Stage)
    requires w.Sound() && Unused(w, t, node, gnode)
    ensures Added(w, t, node, gnode, dest).Named() && Added(w, t, node, gnode, dest).Nodes()
  {
    var v := Added(w, t, node, gnode, dest);
    forall q: Stage ensures Chain(v.rings.At(q), v.hs.At(q), v.nodes, v.lists.At(q)) {
      AddedAt(w, t, node, gnode, dest, q);
      ChainExtend(w.rings.At(q), w.hs.At(q), w.nodes, w.lists.At(q), t, node);
      if q == dest {
        ChainSnoc(w.rings.At(q), w.hs.At(q), v.nodes, w.lists.At(q), t);
      }
    }
    ChainExtend(w.rings.all, w.hs.all, w.gnodes, w.all, t, gnode);
    ChainSnoc(w.rings.all, w.hs.all, v.gnodes, w.all, t);
  }

  lemma AddedSpun(w: World, repr: set<Node>, t: nat, node: Node, gnode: Node, dest: Stage)
    requires AllHeld(w, repr) && node in repr && gnode in repr
    requires Cycle(w.rings.all + [gnode])
    requires forall r :: r in StageRings(w, dest) + {w.rings.At(dest) + [node]} ==> Cycle(r)
    ensures Spun(Added(w, t, node, gnode, dest), repr)
  {
    var v := Added(w, t, node, gnode, dest);
    var d' := w.rings.At(dest) + [node];
    forall q: Stage ensures Held(v.rings.At(q), repr) && Cycle(v.rings.At(q)) {
      AddedAt(w, t, node, gnode, dest, q);
      if q == dest {
        assert d' in StageRings(w, dest) + {d'};
      } else {
        assert w.rings.At(q) in StageRings(w, dest) + {d'};
      }
    }
  }

  /** The six stage rings. */
  ghost function AllStages(w: World): set<seq<Node>> {
    set q: Stage | true :: w.rings.At(q)
  }

  /** A node outside every ring. */
  ghost predicate Loose(w: World, x: Node) {
    x !in w.rings.all && forall q: Stage :: x !in w.rings.At(q)
  }

  lemma StagesElsewhere(w: World, repr: set<Node>)
    requires w.Sound() && Spun(w, repr)
    ensures AllHeld(w, repr)
    ensures forall r :: r in AllStages(w) ==> Elsewhere(r, w.rings.all)
  {
    assert w.Key(0);
    forall r | r in AllStages(w) ensures Elsewhere(r, w.rings.all) {
      var q: Stage :| r == w.rings.At(q);
      w.AllApart(q);
    }
  }

  /** The linking of a new request: `list_add_tail` to `all_reqs`, then to the init list; or, as
      `kh_fail_request` does, `list_del` of the still unlinked node and `list_add_tail` to the done list. */
  method AddNodes(node: Node, gnode: Node, hs: Heads, found: bool, ghost w: World, ghost repr: set<Node>, ghost t: nat)
    requires w.Solid() && Spun(w, repr) && hs == w.hs && Loose(w, node) && Loose(w, gnode) && node != gnode
    requires Cycle([node])
    modifies node, gnode, repr
    ensures Spun(Added(w, t, node, gnode, if found then Init else Done), repr + {node, gnode})
  {
    assert w.Key(0);
    var dest := if found then Init else Done;
    ghost var g', d := w.rings.all + [gnode], w.rings.At(dest);
    ghost var stages := AllStages(w);
    StagesElsewhere(w, repr);
    ChainHead(w.rings.all, hs.all, w.gnodes, w.all);
    ChainHead(d, hs.At(dest), w.nodes, w.lists.At(dest));
    ListAddTail(gnode, hs.all, w.rings.all, stages + {[node]});
    assert [node] in stages + {[node]};
    forall r | r in stages + {g'} ensures Elsewhere(r, [node]) {
      assert r in stages ==> r in stages + {[node]};
    }
    if found {
      assert forall r :: r in stages + {g'} ==> Elsewhere(r, [node]);
    } else {
      ListDel(node, [node], 0, stages + {g'});
    }
    LinkLast(node, hs.At(dest), w, gnode, dest);
    AddedSpun(w, repr + {node, gnode}, t, node, gnode, dest);
  }

  method LinkLast(node: Node, head: Node, ghost w: World, ghost gnode: Node, ghost dest: Stage)
    requires w.Sound() && head == w.hs.At(dest) && Loose(w, node) && Loose(w, gnode) && node != gnode
    requires Cycle(w.rings.all + [gnode]) && forall r :: r in AllStages(w) ==> Cycle(r)
    modifies node, w.rings.At(dest)
    ensures Cycle(w.rings.all + [gnode])
    ensures forall r :: r in StageRings(w, dest) + {w.rings.At(dest) + [node]} ==> Cycle(r)
  {
    ghost var d := w.rings.At(dest);
    ghost var rest := StageRings(w, dest);
    ghost var g' := w.rings.all + [gnode];
    ChainHead(d, head, w.nodes, w.lists.At(dest));
    assert d in AllStages(w);
    w.AllApart(dest);
    forall r | r in rest + {g'} ensures Elsewhere(r, d) && node !in r {
      if r in rest {
        var q: Stage :| q != dest && r == w.rings.At(q);
        assert r in AllStages(w);
        w.TwoRings(q, dest);
      }
    }
    ListAddTail(node, head, d, rest + {g'});
    assert g' in rest + {g'};
    assert forall r :: r in rest ==> r in rest + {g'};
  }
}

/** The intrusive doubly linked list: nodes are embedded in the structures they link, and a
    list is a head node followed by its members. */
module GlueThread {
  import opened Sequences

  class GlThread {
    var left: GlThread?
    var right: GlThread?
    /** Which structure this node is embedded in; it replaces the pointer arithmetic that
        recovers the structure from the node.  -1 for a list head. */
    const elem: int
    /** Which family of lists the node can be on: a structure has one node per family. */
    ghost const family: nat

    constructor (elem: int, ghost family: nat)
      ensures Alone(this) && this.elem == elem && this.family == family
    {
      left, right := null, null;
      this.elem := elem;
      this.family := family;
    }
  }

  ghost predicate Alone(n: GlThread)
    reads n
  {
    n.left == null && n.right == null
  }

  ghost function LeftOf(s: seq<GlThread>, i: nat): GlThread?
    requires i < |s|
  {
    if i == 0 then null else s[i - 1]
  }

  ghost function RightOf(s: seq<GlThread>, i: nat): GlThread?
    requires i < |s|
  {
    if i + 1 < |s| then s[i + 1] else null
  }

  ghost predicate LinkedAt(s: seq<GlThread>, i: nat)
    requires i < |s|
    reads s[i]
  {
    s[i].left == LeftOf(s, i) && s[i].right == RightOf(s, i)
  }

  /** `s` is a list as the code sees it: head first, then the members from left to right. */
  ghost predicate Linked(s: seq<GlThread>)
    reads s
  {
    |s| > 0 && NoDup(s) && forall i: nat | i < |s| :: LinkedAt(s, i)
  }

  method InitGlThread(n: GlThread)
    modifies n`left, n`right
    ensures Alone(n)
  {
    n.left := null;
    n.right := null;
  }

  /** `s` with `node` at index `p`. */
  ghost function Inserted(s: seq<GlThread>, p: nat, node: GlThread): (r: seq<GlThread>)
    requires p <= |s|
    ensures |r| == |s| + 1 && r[p] == node
    ensures forall j | 0 <= j < p :: r[j] == s[j]
    ensures forall j | p < j < |r| :: r[j] == s[j - 1]
  {
    s[..p] + [node] + s[p..]
  }

  lemma Distinct(s: seq<GlThread>, i: nat)
    requires NoDup(s) && i < |s|
    ensures forall j | 0 <= j < |s| && j != i :: s[j] != s[i]
  {}

  lemma InsertedNoDup(s: seq<GlThread>, p: nat, node: GlThread)
    requires NoDup(s) && node !in s && p <= |s|
    ensures NoDup(Inserted(s, p, node))
  {}

  method AddNext(curr: GlThread, node: GlThread, ghost s: seq<GlThread>, ghost i: nat)
    requires Linked(s) && i < |s| && s[i] == curr && node !in s && Alone(node)
    modifies s, node
    ensures Linked(Inserted(s, i + 1, node))
  {
    hide NoDup, Inserted;
    InsertedNoDup(s, i + 1, node);
    Distinct(s, i);
    ghost var t := Inserted(s, i + 1, node);
    assert LinkedAt(s, i);
    if curr.right == null {
      curr.right := node;
      node.left := curr;
      forall j: nat | j < |t| ensures LinkedAt(t, j) {
        assert j <= i ==> old(LinkedAt(s, j));
      }
      return;
    }
    var temp := curr.right;
    Distinct(s, i + 1);
    assert LinkedAt(s, i + 1);
    curr.right := node;
    node.left := curr;
    node.right := temp;
    temp.left := node;
    forall j: nat | j < |t| ensures LinkedAt(t, j) {
      assert j <= i ==> old(LinkedAt(s, j));
      assert j > i + 1 ==> old(LinkedAt(s, j - 1));
    }
  }

  ghost function Removed(s: seq<GlThread>, i: nat): (r: seq<GlThread>)
    requires i < |s|
    ensures |r| == |s| - 1
    ensures forall j | 0 <= j < i :: r[j] == s[j]
    ensures forall j | i <= j < |r| :: r[j] == s[j + 1]
  {
    s[..i] + s[i + 1..]
  }

  lemma RemovedNoDup(s: seq<GlThread>, i: nat)
    requires NoDup(s) && i < |s|
    ensures NoDup(Removed(s, i))
  {}

  /** Unlinking needs no list head; a node that is on no list (`i == 0`) stays as it is.  Unlinking
      the head of a list with members leaves the members, the first one at their head. */
  method RemoveGlThread(node: GlThread, ghost s: seq<GlThread>, ghost i: nat)
    requires Linked(s) && i < |s| && if i == 0 then Alone(node) || node == s[0] else node == s[i]
    modifies s
    ensures Alone(node) && Linked(if i == 0 && (node != s[0] || |s| == 1) then s else Removed(s, i))
  {
    hide NoDup, Removed;
    assert LinkedAt(s, i);
    ghost var t := Removed(s, i);
    RemovedNoDup(s, i);
    if node.left == null {
      if node.right != null {
        Distinct(s, 1);
        assert LinkedAt(s, 1);
        node.right.left := null;
        node.right := null;
        forall j: nat | j < |t| ensures LinkedAt(t, j) {
          assert old(LinkedAt(s, j + 1));
        }
      }
      return;
    }
    Distinct(s, i);
    Distinct(s, i - 1);
    assert LinkedAt(s, i - 1);
    if node.right == null {
      node.left.right := null;
      node.left := null;
      forall j: nat | j < |t| ensures LinkedAt(t, j) {
        assert old(LinkedAt(s, j));
      }
      return;
    }
    Distinct(s, i + 1);
    assert LinkedAt(s, i + 1);
    node.left.right := node.right;
    node.right.left := node.left;
    node.left := null;
    node.right := null;
    forall j: nat | j < |t| ensures LinkedAt(t, j) {
      assert j < i ==> old(LinkedAt(s, j));
      assert j >= i ==> old(LinkedAt(s, j + 1));
    }
  }

  /** `comp` is the caller's three-way comparison of the structures two nodes are embedded in;
      `c[j]` is its verdict on the new node and the j-th node of the list.  The new node goes
      before the first node it compares less than: after its equals. */
  method PriorityInsert(head: GlThread, node: GlThread, comp: (GlThread, GlThread) ~> int,
                        ghost s: seq<GlThread>, ghost c: seq<int>)
    returns (ghost p: nat)
    requires Linked(s) && head == s[0] && node !in s && |c| == |s|
    requires forall j | 1 <= j < |s| :: comp.requires(node, s[j]) && comp(node, s[j]) == c[j]
    requires forall j, m: GlThread | 1 <= j < |s| && (m == node || m in s) :: m !in comp.reads(node, s[j])
    modifies s, node
    ensures 1 <= p <= |s| && Linked(Inserted(s, p, node))
    ensures forall j | 1 <= j < p :: c[j] != -1
    ensures p < |s| ==> c[p] == -1
  {
    InitGlThread(node);
    assert LinkedAt(s, 0);
    if head.right == null && head.left == null {
      AddNext(head, node, s, 0);
      return 1;
    }
    var first := head.right;
    assert LinkedAt(s, 1);
    if first != null && first.right == null {
      if comp(node, first) == -1 {
        AddNext(head, node, s, 0);
        return 1;
      } else {
        AddNext(first, node, s, 1);
        return 2;
      }
    }
    var curr, prev: GlThread? := head.right, null;
    p := 1;
    while curr != null
      invariant Linked(s) && Alone(node)
      invariant 1 <= p <= |s| && curr == (if p < |s| then s[p] else null)
      invariant prev == if p == 1 then null else s[p - 1]
      invariant forall j | 1 <= j < |s| :: comp.requires(node, s[j]) && comp(node, s[j]) == c[j]
      invariant forall j | 1 <= j < p :: c[j] != -1
      decreases |s| - p
    {
      assert LinkedAt(s, p);
      if comp(node, curr) != -1 {
        prev := curr;
        curr := curr.right;
        p := p + 1;
        continue;
      }
      if prev == null {
        AddNext(head, node, s, 0);
      } else {
        AddNext(prev, node, s, p - 1);
      }
      return;
    }
    AddNext(prev, node, s, p - 1);
  }

  method AddLast(head: GlThread, node: GlThread, ghost s: seq<GlThread>)
    requires Linked(s) && head == s[0] && node !in s && Alone(node)
    modifies s, node
    ensures Linked(s + [node])
  {
    var curr, prev: GlThread? := head.right, null;
    ghost var i := 0;
    assert LinkedAt(s, 0);
    while curr != null
      invariant i < |s| && curr == (if i + 1 < |s| then s[i + 1] else null)
      invariant prev == if i == 0 then null else s[i]
      decreases |s| - i
    {
      assert LinkedAt(s, i + 1);
      prev := curr;
      curr := curr.right;
      i := i + 1;
    }
    assert s[..|s|] + [node] + s[|s|..] == s + [node];
    if prev != null {
      AddNext(prev, node, s, i);
    } else {
      AddNext(head, node, s, 0);
    }
  }

  method DequeueFirst(head: GlThread, ghost s: seq<GlThread>) returns (node: GlThread?)
    requires Linked(s) && head == s[0]
    modifies s
    ensures |s| == 1 ==> node == null && Linked(s)
    ensures |s| > 1 ==> node == s[1] && Alone(s[1]) && Linked([head] + s[2..])
  {
    assert LinkedAt(s, 0);
    if head.right == null {
      return null;
    }
    node := head.right;
    RemoveGlThread(node, s, 1);
    assert Removed(s, 1) == [head] + s[2..];
  }

  /** The iteration macro takes the next node before the body runs, so removing while walking
      is safe. */
  method DeleteList(head: GlThread, ghost s: seq<GlThread>)
    requires Linked(s) && head == s[0]
    modifies s
    ensures Linked([head]) && forall n | n in s :: Alone(n)
  {
    var curr := head.right;
    assert LinkedAt(s, 0);
    ghost var t: seq<GlThread> := s;
    while curr != null
      invariant Linked(t) && t[0] == head && curr == (if |t| > 1 then t[1] else null)
      invariant forall j | 0 <= j < |t| :: t[j] in s
      invariant forall n | n in s && n !in t :: Alone(n)
      decreases |t|
    {
      var next := curr.right;
      assert LinkedAt(t, 1);
      RemoveGlThread(curr, t, 1);
      t := Removed(t, 1);
      assert |t| > 1 ==> t[1] == next;
      curr := next;
    }
    assert t == [head] && LinkedAt(t, 0);
  }

  // ---- several lists over one set of nodes

  ghost predicate Disjoint(s: seq<GlThread>, t: seq<GlThread>) {
    forall n | n in s :: n !in t
  }

  ghost predicate Apart(chains: seq<seq<GlThread>>) {
    forall j, k | 0 <= j < |chains| && 0 <= k < |chains| && j != k :: Disjoint(chains[j], chains[k])
  }

  ghost predicate OnSome(chains: seq<seq<GlThread>>, n: GlThread) {
    exists k :: 0 <= k < |chains| && n in chains[k]
  }

  ghost predicate ChainOk(nodes: set<GlThread>, s: seq<GlThread>)
    reads nodes
  {
    (forall n | n in s :: n in nodes) && Linked(s)
  }

  /** All `nodes` are accounted for: the lists share none, and a node on no list is unlinked. */
  ghost predicate Network(nodes: set<GlThread>, chains: seq<seq<GlThread>>)
    reads nodes
  {
    && Apart(chains)
    && (forall k: nat | k < |chains| :: ChainOk(nodes, chains[k]))
    && (forall n | n in nodes && !OnSome(chains, n) :: Alone(n))
  }

  lemma SubApart(chains: seq<seq<GlThread>>, k: nat, s: seq<GlThread>, extra: set<GlThread>)
    requires Apart(chains) && k < |chains|
    requires forall n | n in s :: n in chains[k] || n in extra
    requires forall n | n in extra :: !OnSome(chains, n)
    ensures Apart(chains[k := s])
  {
    var c := chains[k := s];
    forall i, j | 0 <= i < |c| && 0 <= j < |c| && i != j ensures Disjoint(c[i], c[j]) {
      assert Disjoint(chains[i], chains[j]) && Disjoint(chains[j], chains[i]);
      forall n | n in c[i] ensures n !in c[j] {
        if n in extra {
          assert n !in chains[i] && n !in chains[j];
        }
      }
    }
  }

  lemma OffTheOthers(chains: seq<seq<GlThread>>, k: nat, j: nat)
    requires Apart(chains) && k < |chains| && j < |chains| && j != k
    ensures Disjoint(chains[j], chains[k])
  {}

  lemma RemovedMembers(s: seq<GlThread>, i: nat)
    requires i < |s|
    ensures forall n | n in Removed(s, i) :: n in s
    ensures forall n | n in s && n != s[i] :: n in Removed(s, i)
  {
    forall n | n in s && n != s[i] ensures n in Removed(s, i) {
      var j :| 0 <= j < |s| && s[j] == n;
      assert n == Removed(s, i)[if j < i then j else j - 1];
    }
  }

  lemma StillOn(chains: seq<seq<GlThread>>, k: nat, s: seq<GlThread>, n: GlThread)
    requires k < |chains| && OnSome(chains, n) && (n in chains[k] ==> n in s)
    ensures OnSome(chains[k := s], n)
  {
    var j :| 0 <= j < |chains| && n in chains[j];
    assert n in chains[k := s][j];
  }

  /** `RemoveGlThread` seen from all lists; with `i == 0` the node is on none, or is the head of one. */
  method RemoveNode(node: GlThread, ghost nodes: set<GlThread>, ghost chains: seq<seq<GlThread>>, ghost k: nat,
          ghost i: nat)
    requires Network(nodes, chains) && node in nodes && k < |chains| && i < |chains[k]|
    requires if i == 0 then !OnSome(chains, node) || node == chains[k][0] else node == chains[k][i]
    modifies nodes
    ensures Alone(node)
    ensures Network(nodes, if i == 0 && (!OnSome(chains, node) || |chains[k]| == 1) then chains
                           else chains[k := Removed(chains[k], i)])
  {
    hide Apart, Linked, Removed, OnSome;
    if !OnSome(chains, node) {
      NotOn(chains, k, node);
    }
    ghost var s, t := chains[k], Removed(chains[k], i);
    ghost var c := chains[k := t];
    assert ChainOk(nodes, s);
    RemoveGlThread(node, s, i);
    RemovedMembers(s, i);
    SubApart(chains, k, t, {});
    forall j: nat | j < |chains| && j != k ensures ChainOk(nodes, chains[j]) {
      OffTheOthers(chains, k, j);
      assert old(ChainOk(nodes, chains[j])) && old(Linked(chains[j]));
      assert forall i | 0 <= i < |chains[j]| :: chains[j][i] in chains[j];
      assert forall i | 0 <= i < |s| :: s[i] in s;
      assert Linked(chains[j]);
    }
    forall n | n in nodes && !OnSome(chains, n) ensures Alone(n) {
      NotOn(chains, k, n);
    }
    if i > 0 || node == s[0] {
      forall n | n in nodes && n != node && !OnSome(c, n) ensures Alone(n) {
        if OnSome(chains, n) {
          StillOn(chains, k, t, n);
        }
      }
    }
  }

  lemma NotOn(chains: seq<seq<GlThread>>, k: nat, n: GlThread)
    requires k < |chains| && !OnSome(chains, n)
    ensures n !in chains[k]
  {}

  /** `PriorityInsert` seen from all lists. */
  method InsertNode(head: GlThread, node: GlThread, comp: (GlThread, GlThread) ~> int,
                    ghost nodes: set<GlThread>, ghost chains: seq<seq<GlThread>>, ghost k: nat, ghost c: seq<int>)
    returns (ghost p: nat)
    requires Network(nodes, chains) && node in nodes && k < |chains| && !OnSome(chains, node)
    requires |c| == |chains[k]| > 0 && head == chains[k][0]
    requires forall j | 1 <= j < |c| :: comp.requires(node, chains[k][j]) && comp(node, chains[k][j]) == c[j]
    requires forall j, m: GlThread | 1 <= j < |c| :: m !in comp.reads(node, chains[k][j])
    modifies nodes
    ensures 1 <= p <= |c| && (forall j | 1 <= j < p :: c[j] != -1) && (p < |c| ==> c[p] == -1)
    ensures Network(nodes, chains[k := Inserted(chains[k], p, node)])
  {
    hide Apart, Linked, Inserted, OnSome;
    ghost var s := chains[k];
    assert ChainOk(nodes, s);
    NotOn(chains, k, node);
    p := PriorityInsert(head, node, comp, s, c);
    ghost var t := Inserted(s, p, node);
    AfterInsert(chains, k, p, node);
    forall j: nat | j < |chains| && j != k ensures ChainOk(nodes, chains[j]) {
      OffTheOthers(chains, k, j);
      NotOn(chains, j, node);
      assert old(ChainOk(nodes, chains[j])) && old(Linked(chains[j]));
      assert forall i | 0 <= i < |chains[j]| :: chains[j][i] in chains[j];
      assert forall i | 0 <= i < |s| :: s[i] in s;
      assert Linked(chains[j]);
    }
    forall n | n in nodes && !OnSome(chains[k := t], n) ensures Alone(n) {
      NotOn(chains, k, n);
    }
  }

  lemma AfterInsert(chains: seq<seq<GlThread>>, k: nat, p: nat, node: GlThread)
    requires Apart(chains) && k < |chains| && p <= |chains[k]| && !OnSome(chains, node)
    ensures var c := chains[k := Inserted(chains[k], p, node)];
            Apart(c) && OnSome(c, node) && forall n :: OnSome(chains, n) ==> OnSome(c, n)
    ensures forall n | n in Inserted(chains[k], p, node) :: n in chains[k] || n == node
  {
    var t := Inserted(chains[k], p, node);
    SubApart(chains, k, t, {node});
    assert node in chains[k := t][k];
    forall n | OnSome(chains, n) ensures OnSome(chains[k := t], n) {
      StillOn(chains, k, t, n);
    }
  }

  /** `AddNext` at the head, seen from all lists. */
  method PushNode(head: GlThread, node: GlThread, ghost nodes: set<GlThread>, ghost chains: seq<seq<GlThread>>,
          ghost k: nat)
    requires Network(nodes, chains) && node in nodes && k < |chains| && !OnSome(chains, node)
    requires |chains[k]| > 0 && head == chains[k][0]
    modifies nodes
    ensures Network(nodes, chains[k := Inserted(chains[k], 1, node)])
  {
    hide Apart, Linked, Inserted, OnSome;
    ghost var s := chains[k];
    assert ChainOk(nodes, s);
    NotOn(chains, k, node);
    AddNext(head, node, s, 0);
    AfterInsert(chains, k, 1, node);
    forall j: nat | j < |chains| && j != k ensures ChainOk(nodes, chains[j]) {
      OffTheOthers(chains, k, j);
      NotOn(chains, j, node);
      assert old(ChainOk(nodes, chains[j])) && old(Linked(chains[j]));
      assert forall i | 0 <= i < |chains[j]| :: chains[j][i] in chains[j];
      assert forall i | 0 <= i < |s| :: s[i] in s;
      assert Linked(chains[j]);
    }
    forall n | n in nodes && !OnSome(chains[k := Inserted(s, 1, node)], n) ensures Alone(n) {
      NotOn(chains, k, n);
    }
  }

  /** Nothing linked yet: every list is just its head. */
  lemma SingletonNetwork(nodes: set<GlThread>, chains: seq<seq<GlThread>>, heads: seq<GlThread>)
    requires |chains| == |heads| && NoDup(heads)
    requires forall k | 0 <= k < |heads| :: chains[k] == [heads[k]] && heads[k] in nodes
    requires forall n | n in nodes :: Alone(n)
    ensures Network(nodes, chains)
  {
    forall k: nat | k < |chains| ensures ChainOk(nodes, chains[k]) {
      assert Alone(heads[k]);
    }
  }

  lemma NetworkGrow(nodes: set<GlThread>, chains: seq<seq<GlThread>>, extra: set<GlThread>)
    requires Network(nodes, chains) && forall n | n in extra :: Alone(n)
    ensures Network(nodes + extra, chains)
  {
    forall k: nat | k < |chains| ensures ChainOk(nodes + extra, chains[k]) {
      assert ChainOk(nodes, chains[k]);
    }
  }
}

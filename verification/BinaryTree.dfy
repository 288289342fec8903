/**
 The in-memory tree: nodes linked in place on the heap, an explicit stack for walking them, and
 a write-ahead log. The ghost `shape` mirrors the linked nodes; all claims about what the tree
 holds are about the entries of that shape in order.
 */
module BinaryTree {
  import opened Options
  import opened Entries
  import opened SortedEntries
  import opened Log
  import opened MergeFiles

  class Node {
    var key: Key
    var value: Value
    var del: int
    var l: Node?
    var r: Node?

    constructor (key: Key, value: Value)
      ensures this.key == key && this.value == value && del == 0 && l == null && r == null
    {
      this.key, this.value := key, value;
      del, l, r := 0, null, null;
    }
  }

  // The tree that a root pointer reaches

  datatype Shape = Leaf | Fork(node: Node, key: Key, value: Value, left: Shape, right: Shape)

  function Nodes(t: Shape): set<Node> {
    match t
    case Leaf => {}
    case Fork(n, _, _, l, r) => {n} + Nodes(l) + Nodes(r)
  }

  function Inorder(t: Shape): seq<Entry> {
    match t
    case Leaf => []
    case Fork(_, k, v, l, r) => Inorder(l) + ([Entry(k, v)] + Inorder(r))
  }

  /** What a node's fields hold. */
  datatype Cell = Cell(key: Key, value: Value, l: Node?, r: Node?)

  /** The table of fields agrees with the heap. */
  ghost predicate Current(cells: map<Node, Cell>)
    reads cells.Keys
  {
    forall n :: n in cells ==> cells[n] == Cell(n.key, n.value, n.l, n.r)
  }

  /** The pointers spell out this shape, and no node is reached twice. */
  ghost predicate Linked(cells: map<Node, Cell>, n: Node?, t: Shape) {
    match t
    case Leaf => n == null
    case Fork(m, k, v, l, r) =>
      && n == m && m in cells && cells[m].key == k && cells[m].value == v
      && m !in Nodes(l) && m !in Nodes(r) && Nodes(l) !! Nodes(r)
      && Linked(cells, cells[m].l, l) && Linked(cells, cells[m].r, r)
  }

  lemma {:induction false} LinkedFrame(a: map<Node, Cell>, b: map<Node, Cell>, n: Node?, t: Shape)
    requires Linked(a, n, t)
    requires forall m :: m in Nodes(t) && m in a ==> m in b && a[m] == b[m]
    ensures Linked(b, n, t)
  {
    if t.Fork? {
      LinkedFrame(a, b, a[t.node].l, t.left);
      LinkedFrame(a, b, a[t.node].r, t.right);
    }
  }

  ghost predicate AllBelow(s: seq<Entry>, k: Key) {
    forall i :: 0 <= i < |s| ==> s[i].key < k
  }

  ghost predicate AllOver(s: seq<Entry>, k: Key) {
    forall i :: 0 <= i < |s| ==> k < s[i].key
  }

  ghost predicate Ordered(t: Shape) {
    match t
    case Leaf => true
    case Fork(_, k, _, l, r) =>
      Ordered(l) && Ordered(r) && AllBelow(Inorder(l), k) && AllOver(Inorder(r), k)
  }

  lemma {:induction false} OrderedAscending(t: Shape)
    requires Ordered(t)
    ensures Ascending(Inorder(t))
  {
    if t.Fork? {
      OrderedAscending(t.left);
      OrderedAscending(t.right);
    }
  }

  /** The subtree at which the descent for k stops: at k, or where k's side is empty. */
  function End(t: Shape, k: Key): (e: Shape)
    requires t.Fork?
    ensures e.Fork? && Nodes(e) <= Nodes(t)
    ensures k < e.key ==> e.left.Leaf?
    ensures e.key < k ==> e.right.Leaf?
  {
    if k < t.key then if t.left.Leaf? then t else End(t.left, k)
    else if t.key < k then if t.right.Leaf? then t else End(t.right, k)
    else t
  }

  /** The descent finds the key exactly when the tree has it, with its value. */
  lemma {:induction false} EndFinds(t: Shape, k: Key)
    requires Ordered(t) && t.Fork?
    ensures Find(Inorder(t), k) == if End(t, k).key == k then Some(End(t, k).value) else None
  {
    FindConcat(Inorder(t.left), [Entry(t.key, t.value)] + Inorder(t.right), k);
    FindConcat([Entry(t.key, t.value)], Inorder(t.right), k);
    if k <= t.key { FindNowhere(Inorder(t.right), k); }
    if t.key <= k { FindNowhere(Inorder(t.left), k); }
    if k < t.key && t.left.Fork? { EndFinds(t.left, k); }
    if t.key < k && t.right.Fork? { EndFinds(t.right, k); }
  }

  /** Storing k: the value is replaced, or a new node hangs where the descent ended. */
  function Attach(t: Shape, k: Key, v: Value, added: Node): Shape {
    if t.Leaf? then Fork(added, k, v, Leaf, Leaf)
    else if k < t.key then t.(left := Attach(t.left, k, v, added))
    else if t.key < k then t.(right := Attach(t.right, k, v, added))
    else t.(value := v)
  }

  lemma {:induction false} AttachPuts(t: Shape, k: Key, v: Value, added: Node)
    requires Ordered(t)
    ensures Inorder(Attach(t, k, v, added)) == Put(Inorder(t), k, v)
  {
    if t.Fork? {
      var a, b := Inorder(t.left), [Entry(t.key, t.value)] + Inorder(t.right);
      assert b[0].key == t.key && b[1..] == Inorder(t.right);
      if k < t.key {
        AttachPuts(t.left, k, v, added);
        PutBefore(a, b, k, v);
      } else {
        PutConcat(a, b, k, v);
        if t.key < k { AttachPuts(t.right, k, v, added); }
      }
    }
  }

  lemma {:induction false} AttachOrdered(t: Shape, k: Key, v: Value, added: Node)
    requires Ordered(t)
    ensures Ordered(Attach(t, k, v, added))
  {
    if t.Fork? {
      if k < t.key {
        AttachOrdered(t.left, k, v, added);
        AttachPuts(t.left, k, v, added);
        PutBounds(Inorder(t.left), k, v);
      } else if t.key < k {
        AttachOrdered(t.right, k, v, added);
        AttachPuts(t.right, k, v, added);
        PutBounds(Inorder(t.right), k, v);
      }
    }
  }

  lemma PutBounds(s: seq<Entry>, k: Key, v: Value)
    ensures forall q: Key :: AllBelow(s, q) && k < q ==> AllBelow(Put(s, k, v), q)
    ensures forall q: Key :: AllOver(s, q) && q < k ==> AllOver(Put(s, k, v), q)
  {
    PutKeys(s, k, v);
    forall q: Key | AllBelow(s, q) && k < q ensures AllBelow(Put(s, k, v), q) {
      forall i | 0 <= i < |Put(s, k, v)| ensures Put(s, k, v)[i].key < q {
        assert Put(s, k, v)[i] in Put(s, k, v);
      }
    }
    forall q: Key | AllOver(s, q) && q < k ensures AllOver(Put(s, k, v), q) {
      forall i | 0 <= i < |Put(s, k, v)| ensures q < Put(s, k, v)[i].key {
        assert Put(s, k, v)[i] in Put(s, k, v);
      }
    }
  }

  lemma {:induction false} EndLinked(cells: map<Node, Cell>, n: Node?, t: Shape, k: Key)
    requires t.Fork? && Linked(cells, n, t)
    ensures End(t, k).node in cells && cells[End(t, k).node].key == End(t, k).key
    ensures cells[End(t, k).node].value == End(t, k).value
  {
    if k < t.key && t.left.Fork? {
      EndLinked(cells, cells[t.node].l, t.left, k);
    } else if t.key < k && t.right.Fork? {
      EndLinked(cells, cells[t.node].r, t.right, k);
    }
  }

  /** The one change an insert makes to the nodes: at p, where the descent ended. */
  function Hooked(cells: map<Node, Cell>, p: Node, k: Key, v: Value, added: Node): map<Node, Cell>
    requires p in cells
  {
    var c := cells[p];
    if k < c.key then cells[p := c.(l := added)][added := Cell(k, v, null, null)]
    else if c.key < k then cells[p := c.(r := added)][added := Cell(k, v, null, null)]
    else cells[p := c.(value := v)]
  }

  /**
   With that one pointer or value changed, the pointers spell the attached shape: nothing else
   moved, nothing is shared.
   */
  lemma {:induction false} HookedLinked(cells: map<Node, Cell>, n: Node?, t: Shape, k: Key, v: Value, added: Node)
    requires t.Fork? && Linked(cells, n, t)
    requires added in Nodes(t) ==> added == End(t, k).node && End(t, k).key == k
    ensures End(t, k).node in cells && cells[End(t, k).node].key == End(t, k).key
    ensures Linked(Hooked(cells, End(t, k).node, k, v, added), n, Attach(t, k, v, added))
    ensures Nodes(Attach(t, k, v, added)) == Nodes(t) + if End(t, k).key == k then {} else {added}
  {
    var l, r := cells[t.node].l, cells[t.node].r;
    if k < t.key && t.left.Fork? {
      HookedLinked(cells, l, t.left, k, v, added);
      LinkedFrame(cells, Hooked(cells, End(t, k).node, k, v, added), r, t.right);
    } else if t.key < k && t.right.Fork? {
      HookedLinked(cells, r, t.right, k, v, added);
      LinkedFrame(cells, Hooked(cells, End(t, k).node, k, v, added), l, t.left);
    } else {
      HookedHere(cells, n, t, k, v, added);
    }
  }

  /** What the attached shape and the changed table of fields are together. */
  lemma Grown(cells: map<Node, Cell>, n: Node?, t: Shape, k: Key, v: Value, added: Node)
    requires t.Fork? && cells.Keys == Nodes(t) && Linked(cells, n, t) && Ordered(t)
    requires added in Nodes(t) ==> added == End(t, k).node && End(t, k).key == k
    requires End(t, k).key == k ==> added == End(t, k).node
    ensures End(t, k).node in cells
    ensures var grown, table := Attach(t, k, v, added), Hooked(cells, End(t, k).node, k, v, added);
      && table.Keys == Nodes(grown) && Linked(table, n, grown) && Ordered(grown)
      && Inorder(grown) == Put(Inorder(t), k, v) && Nodes(grown) == Nodes(t) + {added}
  {
    AttachPuts(t, k, v, added);
    AttachOrdered(t, k, v, added);
    HookedLinked(cells, n, t, k, v, added);
    assert End(t, k).node in Nodes(End(t, k));
  }

  /** The case in which the descent ends at the root. */
  lemma HookedHere(cells: map<Node, Cell>, n: Node?, t: Shape, k: Key, v: Value, added: Node)
    requires t.Fork? && Linked(cells, n, t) && End(t, k) == t
    requires added in Nodes(t) ==> added == t.node && t.key == k
    ensures Linked(Hooked(cells, t.node, k, v, added), n, Attach(t, k, v, added))
    ensures Nodes(Attach(t, k, v, added)) == Nodes(t) + if t.key == k then {} else {added}
  {
    LinkedFrame(cells, Hooked(cells, t.node, k, v, added), cells[t.node].l, t.left);
    LinkedFrame(cells, Hooked(cells, t.node, k, v, added), cells[t.node].r, t.right);
  }

  // Walking the tree with an explicit stack

  /** What is still to be written when these subtrees wait on the stack with their left parts done. */
  ghost function Pending(gs: seq<Shape>): seq<Entry>
    requires forall t :: t in gs ==> t.Fork?
  {
    if gs == [] then []
    else
      var top := gs[|gs| - 1];
      [Entry(top.key, top.value)] + (Inorder(top.right) + Pending(gs[..|gs| - 1]))
  }

  ghost predicate OnStack(cells: map<Node, Cell>, stk: seq<Node>, gs: seq<Shape>) {
    |stk| == |gs| && forall i :: 0 <= i < |stk| ==> gs[i].Fork? && Linked(cells, stk[i], gs[i])
  }

  lemma Regroup(out: seq<Entry>, e: Entry, rest: seq<Entry>)
    ensures out + ([e] + rest) == (out + [e]) + rest
  {
  }

  lemma PendingPush(gs: seq<Shape>, t: Shape)
    requires t.Fork? && forall x :: x in gs ==> x.Fork?
    ensures Inorder(t.left) + Pending(gs + [t]) == Inorder(t) + Pending(gs)
  {
    assert (gs + [t])[..|gs|] == gs;
  }

  ghost function NodeBag(t: Shape): multiset<Node> {
    match t
    case Leaf => multiset{}
    case Fork(n, _, _, l, r) => multiset{n} + NodeBag(l) + NodeBag(r)
  }

  ghost function StackBag(gs: seq<Shape>): multiset<Node> {
    if gs == [] then multiset{} else StackBag(gs[..|gs| - 1]) + NodeBag(gs[|gs| - 1])
  }

  function PushFork(gs: seq<Shape>, t: Shape): seq<Shape> {
    if t.Leaf? then gs else gs + [t]
  }

  lemma PushBag(gs: seq<Shape>, t: Shape)
    ensures StackBag(PushFork(gs, t)) == StackBag(gs) + NodeBag(t)
  {
    if t.Fork? { assert (gs + [t])[..|gs|] == gs; }
  }

  lemma PopBag(below: seq<Shape>, t: Shape)
    requires t.Fork?
    ensures StackBag(PushFork(PushFork(below, t.left), t.right)) + multiset{t.node} == StackBag(below) + NodeBag(t)
  {
    PushBag(below, t.left);
    PushBag(PushFork(below, t.left), t.right);
  }

  lemma FreedOnce(all: set<Node>, freed: seq<Node>, gs: seq<Shape>, hs: seq<Shape>, n: Node)
    requires multiset(freed) + StackBag(gs) == multiset(all)
    requires StackBag(gs) == StackBag(hs) + multiset{n}
    ensures n !in freed && multiset(freed + [n]) + StackBag(hs) == multiset(all)
    ensures |StackBag(hs)| < |StackBag(gs)|
  {
    assert n in freed ==> multiset(freed)[n] > 0;
    assert multiset(all)[n] <= 1;
  }

  /** The node on top of the stack has not been freed. */
  lemma TopNotFreed(all: set<Node>, freed: seq<Node>, gs: seq<Shape>)
    requires multiset(freed) + StackBag(gs) == multiset(all)
    requires gs != [] && gs[|gs| - 1].Fork?
    ensures gs[|gs| - 1].node !in freed
  {
    var n := gs[|gs| - 1].node;
    assert NodeBag(gs[|gs| - 1])[n] > 0;
    assert n in freed ==> multiset(freed)[n] > 0;
    assert multiset(all)[n] <= 1;
  }

  /** Without sharing, every node of the tree is counted once. */
  lemma {:induction false} NodeBagOnce(cells: map<Node, Cell>, n: Node?, t: Shape)
    requires Linked(cells, n, t)
    ensures NodeBag(t) == multiset(Nodes(t))
  {
    if t.Fork? {
      NodeBagOnce(cells, cells[t.node].l, t.left);
      NodeBagOnce(cells, cells[t.node].r, t.right);
    }
  }

  lemma StartBag(cells: map<Node, Cell>, n: Node?, t: Shape)
    requires Linked(cells, n, t)
    ensures StackBag(PushFork([], t)) == multiset(Nodes(t))
  {
    NodeBagOnce(cells, n, t);
    PushBag([], t);
  }

  lemma {:induction false} KeyCount(s: seq<Entry>)
    requires Ascending(s)
    ensures |set e | e in s :: e.key| == |s|
  {
    var keys := set e | e in s :: e.key;
    if s == [] {
      assert keys == {};
    } else {
      KeyCount(s[1..]);
      var rest := set e | e in s[1..] :: e.key;
      assert keys == rest + {s[0].key};
      assert s[0].key !in rest;
    }
  }

  class Tree {
    var size: int
    var root: Node?
    var stk: seq<Node>
    var logfile: LogFile?
    ghost var shape: Shape
    ghost var cells: map<Node, Cell>

    ghost predicate Valid()
      reads this, cells.Keys
    {
      && cells.Keys == Nodes(shape) && Current(cells)
      && Linked(cells, root, shape) && Ordered(shape) && size == |Inorder(shape)|
    }

    ghost function Contents(): seq<Entry>
      reads this
    {
      Inorder(shape)
    }

    ghost function Footprint(): set<object>
      reads this
    {
      {this} + Nodes(shape) + LogPart()
    }

    ghost function LogPart(): set<LogFile>
      reads this
    {
      if logfile == null then {} else {logfile}
    }

    /** Opening the log empties it. */
    constructor (logfile: LogFile?)
      modifies if logfile == null then {} else {logfile}
      ensures Valid() && Contents() == [] && size == 0 && this.logfile == logfile
      ensures Footprint() == {this} + LogPart()
      ensures logfile != null ==> logfile.records == []
      ensures Backed()
    {
      size, root, stk, shape, cells := 0, null, [], Leaf, map[];
      this.logfile := logfile;
      new;
      if logfile != null {
        logfile.records := [];
      }
    }

    /** The log stands for what has been written since the last dump. */
    ghost predicate Backed()
      reads this, LogPart()
    {
      logfile != null ==> Backs(logfile.records, Contents())
    }

    method LogAction(r: Record)
      requires Valid()
      modifies LogPart()
      ensures Valid()
      ensures logfile != null ==> logfile.records == old(logfile.records) + [r]
    {
      if logfile == null { return; }
      logfile.records := logfile.records + [r];
    }

    /** The node at which the descent for k stops, null for an empty tree. */
    method Descend(k: Key) returns (cur: Node?)
      requires Valid()
      ensures shape.Leaf? ==> cur == null
      ensures shape.Fork? ==> cur == End(shape, k).node
    {
      cur := root;
      ghost var t := shape;
      while cur != null
        invariant Linked(cells, cur, t) && Nodes(t) <= Nodes(shape)
        invariant shape.Leaf? ==> cur == null
        invariant shape.Fork? ==> t.Fork? && End(t, k) == End(shape, k)
        decreases t
      {
        if k < cur.key {
          if cur.l != null {
            cur, t := cur.l, t.left;
          } else {
            return;
          }
        } else if cur.key < k {
          if cur.r != null {
            cur, t := cur.r, t.right;
          } else {
            return;
          }
        } else {
          return;
        }
      }
    }

    /** The node that carries k, if the tree holds k. */
    method Search(k: Key) returns (n: Node?)
      requires Valid()
      ensures n == null <==> Find(Contents(), k).None?
      ensures n != null ==> n in Nodes(shape) && n.key == k && Find(Contents(), k) == Some(n.value)
      ensures n != null ==> shape.Fork? && End(shape, k).node == n && End(shape, k).key == k
    {
      n := Descend(k);
      if n != null {
        EndFinds(shape, k);
        EndCell(k);
        if n.key < k || k < n.key { n := null; }
      }
    }

    lemma EndCell(k: Key)
      requires Valid() && shape.Fork?
      ensures End(shape, k).node in Nodes(shape)
      ensures End(shape, k).node.key == End(shape, k).key && End(shape, k).node.value == End(shape, k).value
    {
      EndLinked(cells, root, shape, k);
      assert End(shape, k).node in Nodes(End(shape, k));
    }

    /** Hangs a new node under p, where the descent ended, or replaces the value p holds for k. */
    method Place(p: Node, k: Key, v: Value)
      requires Valid() && shape.Fork? && p == End(shape, k).node
      modifies this, Nodes(shape)
      ensures Valid() && fresh(Nodes(shape) - old(Nodes(shape)))
      ensures Contents() == Put(old(Contents()), k, v)
      ensures logfile == old(logfile)
    {
      OrderedAscending(shape);
      PutAscending(Contents(), k, v);
      EndFinds(shape, k);
      EndLinked(cells, root, shape, k);
      assert p in Nodes(End(shape, k));
      var added := Touch(p, k, v);
      size := size + if added == p then 0 else 1;
      Grow(p, k, v, added);
    }

    /** The assignments to node fields; returns the node that now carries k. */
    method Touch(p: Node, k: Key, v: Value) returns (added: Node)
      requires p in cells && Current(cells)
      modifies p
      ensures added == p <==> p.key == k
      ensures added != p ==> fresh(added)
      ensures p.key == old(p.key)
      ensures Current(Hooked(cells, p, k, v, added))
    {
      if p.key < k {
        added := new Node(k, v);
        p.r := added;
      } else if k < p.key {
        added := new Node(k, v);
        p.l := added;
      } else {
        added := p;
        p.value := v;
        p.del := 0;
      }
    }

    /** The first node of an empty tree. */
    method Plant(k: Key, v: Value)
      requires Valid() && shape.Leaf?
      modifies this
      ensures Valid() && fresh(Nodes(shape)) && Contents() == [Entry(k, v)] && logfile == old(logfile)
    {
      root := new Node(k, v);
      shape, cells := Fork(root, k, v, Leaf, Leaf), map[root := Cell(k, v, null, null)];
      size := size + 1;
    }

    /** Stores v under k, in a new node or in the one that has k already, and logs it. */
    method Insert(k: Key, v: Value)
      requires Valid()
      modifies this, Nodes(shape), LogPart()
      ensures Valid() && fresh(Nodes(shape) - old(Nodes(shape)))
      ensures Contents() == Put(old(Contents()), k, v)
      ensures logfile == old(logfile)
      ensures logfile != null ==> logfile.records == old(logfile.records) + [Write(k, v)]
      ensures old(Backed()) ==> Backed()
    {
      OrderedAscending(shape);
      if logfile != null && Backed() { WriteBacks(logfile.records, Contents(), k, v); }
      var p := Descend(k);
      if p == null {
        Plant(k, v);
      } else {
        Place(p, k, v);
      }
      LogAction(Write(k, v));
    }

    /** The node count is the number of distinct keys held. */
    lemma SizeCountsKeys()
      requires Valid()
      ensures Ascending(Contents()) && size == |set e | e in Contents() :: e.key|
    {
      OrderedAscending(shape);
      KeyCount(Contents());
    }

    /** Marks k deleted in place; reports -1 and logs nothing when k is not there. */
    method Delete(k: Key) returns (status: int)
      requires Valid()
      modifies this, Nodes(shape), LogPart()
      ensures Valid() && Nodes(shape) == old(Nodes(shape)) && logfile == old(logfile)
      ensures status == if Find(old(Contents()), k).Some? then 0 else -1
      ensures Contents() == if status == 0 then Put(old(Contents()), k, Tombstone()) else old(Contents())
      ensures status == 0 ==> Find(Contents(), k).Some? && |Find(Contents(), k).value| == 64
      ensures status == 0 ==> forall i :: 0 <= i < 64 ==> Find(Contents(), k).value[i] == 0xFF
      ensures logfile != null ==>
        logfile.records == old(logfile.records) + if status == 0 then [Del(k)] else []
      ensures old(Backed()) ==> Backed()
    {
      var n := Search(k);
      if n == null { return -1; }
      status := 0;
      OrderedAscending(shape);
      PutFind(Contents(), k, Tombstone(), k);
      DeleteAt(n, k);
    }

    method DeleteAt(n: Node, k: Key)
      requires Valid() && shape.Fork? && n == End(shape, k).node && End(shape, k).key == k
      requires Find(Contents(), k).Some?
      modifies this, Nodes(shape), LogPart()
      ensures Valid() && Nodes(shape) == old(Nodes(shape)) && logfile == old(logfile)
      ensures Contents() == Put(old(Contents()), k, Tombstone())
      ensures logfile != null ==> logfile.records == old(logfile.records) + [Del(k)]
      ensures old(Backed()) ==> Backed()
    {
      OrderedAscending(shape);
      if logfile != null && Backed() { DeleteBacks(logfile.records, Contents(), k); }
      Mark(n, k);
      LogAction(Del(k));
    }

    method Mark(n: Node, k: Key)
      requires Valid() && shape.Fork? && n == End(shape, k).node && End(shape, k).key == k
      modifies this, Nodes(shape)
      ensures Valid() && Nodes(shape) == old(Nodes(shape)) && logfile == old(logfile)
      ensures Contents() == Put(old(Contents()), k, Tombstone())
    {
      OrderedAscending(shape);
      PutAscending(Contents(), k, Tombstone());
      EndFinds(shape, k);
      EndLinked(cells, root, shape, k);
      assert n in Nodes(End(shape, k));
      n.del := 1;
      n.value := Tombstone();
      Grow(n, k, Tombstone(), n);
    }

    /** Brings the ghost mirror up to date after the one change of an insert. */
    ghost method Grow(p: Node, k: Key, v: Value, added: Node)
      requires cells.Keys == Nodes(shape) && Linked(cells, root, shape) && Ordered(shape)
      requires shape.Fork? && p == End(shape, k).node && p in cells
      requires added in cells ==> added == p && End(shape, k).key == k
      requires Current(Hooked(cells, p, k, v, added))
      requires End(shape, k).key == k ==> added == p
      modifies this`shape, this`cells
      ensures cells.Keys == Nodes(shape) && Current(cells) && Linked(cells, root, shape) && Ordered(shape)
      ensures Inorder(shape) == Put(old(Inorder(shape)), k, v)
      ensures Nodes(shape) == old(Nodes(shape)) + {added}
    {
      Grown(cells, root, shape, k, v, added);
      shape, cells := Attach(shape, k, v, added), Hooked(cells, p, k, v, added);
    }

    /** Pushes n and its chain of left children. */
    method PushSpine(n: Node?, ghost t: Shape, ghost gs: seq<Shape>) returns (ghost hs: seq<Shape>)
      requires Current(cells) && Linked(cells, n, t) && OnStack(cells, stk, gs)
      modifies this`stk
      ensures OnStack(cells, stk, hs) && Pending(hs) == Inorder(t) + Pending(gs)
    {
      var m := n;
      ghost var u := t;
      hs := gs;
      while m != null
        invariant Linked(cells, m, u) && OnStack(cells, stk, hs)
        invariant Inorder(u) + Pending(hs) == Inorder(t) + Pending(gs)
        decreases u
      {
        PendingPush(hs, u);
        stk := stk + [m];
        hs := hs + [u];
        m, u := m.l, u.left;
      }
    }

    /** Pops the next node in order and pushes the left chain of its right subtree. */
    method PopNext(ghost gs: seq<Shape>) returns (e: Entry, ghost hs: seq<Shape>)
      requires stk != [] && Current(cells) && OnStack(cells, stk, gs)
      modifies this`stk
      ensures OnStack(cells, stk, hs)
      ensures Pending(gs) == [e] + Pending(hs)
    {
      var n := stk[|stk| - 1];
      ghost var t := gs[|gs| - 1];
      stk := stk[..|stk| - 1];
      e := Entry(n.key, n.value);
      hs := PushSpine(n.r, t.right, gs[..|gs| - 1]);
    }

    /** The entries in the order the walk writes them. */
    method Walk() returns (out: seq<Entry>)
      requires Current(cells) && Linked(cells, root, shape)
      modifies this`stk
      ensures out == Inorder(shape)
    {
      stk, out := [], [];
      ghost var gs := PushSpine(root, shape, []);
      while stk != []
        invariant OnStack(cells, stk, gs)
        invariant out + Pending(gs) == Inorder(shape)
        decreases |Pending(gs)|
      {
        var e;
        ghost var before := out;
        e, gs := PopNext(gs);
        out := out + [e];
        Regroup(before, e, Pending(gs));
      }
    }

    /** Writes the header and every entry once, in ascending key order, and logs a sync record. */
    method Dump(now: nat) returns (f: File)
      requires Valid()
      modifies this`stk, LogPart()
      ensures Valid() && shape == old(shape) && logfile == old(logfile)
      ensures Contents() == old(Contents()) && Ascending(Contents())
      ensures f == Stamped(now, Contents())
      ensures logfile != null ==> logfile.records == old(logfile.records) + [Sync]
      ensures Backed()
    {
      OrderedAscending(shape);
      if logfile != null { SyncBacks(logfile.records, Contents()); }
      var out := Walk();
      f := Stamped(now, out);
      LogAction(Sync);
    }

    /** Pops a node, pushes its children, and lets the node go. It reads no node but that one. */
    method PopFree(ghost gs: seq<Shape>, ghost freed: seq<Node>) returns (n: Node, ghost hs: seq<Shape>)
      requires stk != [] && Current(cells) && OnStack(cells, stk, gs)
      requires stk[|stk| - 1] !in freed
      modifies this`stk
      ensures OnStack(cells, stk, hs) && n == old(stk)[|old(stk)| - 1]
      ensures StackBag(gs) == StackBag(hs) + multiset{n}
    {
      n := stk[|stk| - 1];
      ghost var t, below := gs[|gs| - 1], gs[..|gs| - 1];
      assert cells[n] == Cell(n.key, n.value, n.l, n.r);
      stk := stk[..|stk| - 1];
      PushChild(n.l, t.left, below);
      PushChild(n.r, t.right, PushFork(below, t.left));
      hs := PushFork(PushFork(below, t.left), t.right);
      PopBag(below, t);
    }

    method PushChild(c: Node?, ghost t: Shape, ghost gs: seq<Shape>)
      requires Linked(cells, c, t) && OnStack(cells, stk, gs)
      modifies this`stk
      ensures OnStack(cells, stk, PushFork(gs, t))
    {
      if c != null { stk := stk + [c]; }
    }

    /** Deletes every node, each exactly once, never reading one already deleted. */
    method FreeNodes() returns (ghost freed: seq<Node>)
      requires Current(cells) && Linked(cells, root, shape)
      modifies this`stk
      ensures multiset(freed) == multiset(Nodes(shape))
    {
      StartBag(cells, root, shape);
      stk := [];
      assert OnStack(cells, stk, []);
      PushChild(root, shape, []);
      freed := FreeStack(PushFork([], shape), Nodes(shape));
    }

    method FreeStack(ghost start: seq<Shape>, ghost all: set<Node>) returns (ghost freed: seq<Node>)
      requires Current(cells) && OnStack(cells, stk, start) && StackBag(start) == multiset(all)
      modifies this`stk
      ensures multiset(freed) == multiset(all)
    {
      freed := [];
      ghost var gs := start;
      while stk != []
        invariant OnStack(cells, stk, gs)
        invariant multiset(freed) + StackBag(gs) == multiset(all)
        decreases |StackBag(gs)|
      {
        ghost var was := gs;
        var n;
        TopNotFreed(all, freed, gs);
        n, gs := PopFree(gs, freed);
        FreedOnce(all, freed, was, gs, n);
        assert n !in freed;
        freed := freed + [n];
      }
      assert StackBag(gs) == multiset{};
    }

    /** Empties the tree. */
    method Free() returns (ghost freed: seq<Node>)
      requires Valid()
      modifies this
      ensures Valid() && shape == Leaf && size == 0 && logfile == old(logfile)
      ensures multiset(freed) == multiset(old(Nodes(shape)))
    {
      freed := FreeNodes();
      root, size := null, 0;
      shape, cells := Leaf, map[];
    }

    method Redo(r: Record)
      requires Valid()
      modifies this, Nodes(shape), LogPart()
      ensures Valid() && fresh(Nodes(shape) - old(Nodes(shape))) && logfile == old(logfile)
      ensures Contents() == Apply(old(Contents()), r)
    {
      match r
      case Write(k, v) => Insert(k, v);
      case Del(k) => var _ := Delete(k);
      case Sync =>
      case Other =>
    }

    /** Finds where the records after the last sync begin, reading backwards. */
    static method ScanBack(backup: seq<Record>) returns (pos: nat, buff: Record)
      requires backup != []
      ensures pos <= |backup| && Unsynced(backup) == backup[pos..]
      ensures pos == |backup| ==> buff == Sync
    {
      var found := false;
      pos, buff := |backup|, Other;
      while pos > 0 && !found
        invariant 0 <= pos <= |backup|
        invariant found ==> pos < |backup| && backup[pos] == Sync && buff == Sync
        invariant forall j :: pos + (if found then 1 else 0) <= j < |backup| ==> backup[j] != Sync
        decreases pos, !found
      {
        pos := pos - 1;
        buff := backup[pos];
        if buff == Sync { found := true; }
      }
      if found { pos := pos + 1; }
      UnsyncedSplit(backup, pos);
    }

    /** Loads the contents a log stands for, moving its own log away if it is the one being read. */
    method FromFile(src: LogFile)
      requires Valid()
      modifies this, LogPart()
      ensures Valid() && fresh(Nodes(shape))
      ensures Contents() == Replay(src.records) && src.records == old(src.records)
      ensures if old(logfile) == src then fresh(logfile) else logfile == old(logfile)
    {
      if logfile == src {
        logfile := new LogFile();
      }
      Rebuild(src.records);
    }

    /**
     Empties the tree, scans back to the last sync record, then applies what follows. The reading
     loop notices the end of the file only after a read has failed, so it applies the last record
     a second time.
     */
    method Rebuild(backup: seq<Record>)
      requires Valid()
      modifies this, LogPart()
      ensures Valid() && fresh(Nodes(shape)) && logfile == old(logfile)
      ensures Contents() == Replay(backup)
    {
      ghost var _ := Free();
      if |backup| != 0 {
        var pos, buff := ScanBack(backup);
        Forward(backup, pos, buff);
      }
    }

    method Forward(backup: seq<Record>, start: nat, last: Record)
      requires Valid() && shape == Leaf
      requires start <= |backup| && Unsynced(backup) == backup[start..]
      requires start == |backup| ==> last == Sync
      modifies this, LogPart()
      ensures Valid() && fresh(Nodes(shape)) && logfile == old(logfile)
      ensures Contents() == Replay(backup)
    {
      var pos, buff, eof := start, last, false;
      while !eof
        invariant start <= pos <= |backup|
        invariant Valid() && fresh(Nodes(shape)) && logfile == old(logfile)
        invariant if pos == start then buff == last else buff == backup[pos - 1]
        invariant Contents() == Fold([], backup[start..pos])
        invariant eof ==> pos == |backup|
        decreases |backup| - pos, !eof
      {
        ghost var was := pos;
        if pos < |backup| {
          buff, pos := backup[pos], pos + 1;
        } else {
          eof := true;
        }
        FoldRound(backup, start, was, pos, buff);
        Redo(buff);
      }
      assert backup[start..pos] == backup[start..];
    }

    lemma FoldRound(backup: seq<Record>, start: nat, was: nat, pos: nat, buff: Record)
      requires start <= was <= pos <= |backup| && was == (if pos == |backup| && was == pos then pos else pos - 1)
      requires if pos == start then buff == Sync else buff == backup[pos - 1]
      ensures Apply(Fold([], backup[start..was]), buff) == Fold([], backup[start..pos])
    {
      if was < pos {
        assert backup[start..pos] == backup[start..was] + [buff];
        FoldAppend([], backup[start..was], buff);
      } else if start < pos {
        var init := backup[start..pos - 1];
        assert backup[start..pos] == init + [buff];
        FoldAppend([], init, buff);
        FoldAscending([], init);
        ApplyTwice(Fold([], init), buff);
      }
    }
  }

  /**
   A tree filled, dumped and marked in any way, and one that is loaded from its log: it has what the
   other has of the keys written since the last dump, and no other key.
   */
  method Reload(t: Tree) returns (again: Tree)
    requires t.Valid() && t.Backed() && t.logfile != null
    ensures again.Valid() && fresh(again)
    ensures forall k: Key :: WrittenSince(t.logfile.records, k) ==> Find(again.Contents(), k) == Find(t.Contents(), k)
    ensures forall k: Key :: !WrittenSince(t.logfile.records, k) ==> Find(again.Contents(), k).None?
  {
    ghost var log, s := t.logfile.records, t.Contents();
    again := new Tree(null);
    again.FromFile(t.logfile);
    assert t.logfile.records == log && t.Contents() == s;
    forall k: Key
      ensures WrittenSince(log, k) ==> Find(again.Contents(), k) == Find(s, k)
      ensures !WrittenSince(log, k) ==> Find(again.Contents(), k).None?
    {
      assert BacksKey(log, s, k);
    }
  }
}

/** The binary search tree of section names: why one path before a match, and one path in each subtree of the match, see
    every section that matches. */
module SearchTrees {
  import opened Bytes
  import opened Sections

  /** The shape of the tree, with the numbers of the sections. */
  datatype Tree = Nil | Node(left: Tree, id: nat, right: Tree)

  type Keys = map<nat, Name>

  function Ids(t: Tree): set<nat> {
    match t
    case Nil => {}
    case Node(l, id, r) => Ids(l) + {id} + Ids(r)
  }

  predicate AllLess(ids: set<nat>, keys: Keys, k: Name) {
    forall x :: x in ids ==> x in keys && Compare(keys[x], k).Less?
  }

  predicate AllGreater(ids: set<nat>, keys: Keys, k: Name) {
    forall x :: x in ids ==> x in keys && Compare(k, keys[x]).Less?
  }

  /** A search tree: keys to the left are smaller and keys to the right are greater, none beginning with another. */
  predicate Ordered(t: Tree, keys: Keys) {
    match t
    case Nil => true
    case Node(l, id, r) =>
      && id in keys
      && AllLess(Ids(l), keys, keys[id]) && AllGreater(Ids(r), keys, keys[id])
      && Ordered(l, keys) && Ordered(r, keys)
  }

  /** The sections of a subtree that a name matches. */
  function MatchesIn(t: Tree, keys: Keys, n: Name): set<nat> {
    set id | id in Ids(t) && id in keys && Comparable(n, keys[id])
  }

  lemma LessNotComparable(a: Name, b: Name)
    requires Compare(a, b).Less? || Compare(b, a).Less?
    ensures !Comparable(a, b) && a != b
  {
    CompareIs(a, b);
    CompareIs(b, a);
  }

  /** If the name is less than the key at the root, what matches is to the left. */
  lemma SearchLess(t: Tree, keys: Keys, n: Name)
    requires t.Node? && Ordered(t, keys) && Compare(n, keys[t.id]).Less?
    ensures MatchesIn(t, keys, n) == MatchesIn(t.left, keys, n)
  {
    LessNotComparable(n, keys[t.id]);
    forall x | x in Ids(t.right)
      ensures !Comparable(n, keys[x])
    {
      LessTrans(n, keys[t.id], keys[x]);
      LessNotComparable(n, keys[x]);
    }
  }

  /** If it is greater, to the right. */
  lemma SearchGreater(t: Tree, keys: Keys, n: Name)
    requires t.Node? && Ordered(t, keys) && Compare(n, keys[t.id]).Greater?
    ensures MatchesIn(t, keys, n) == MatchesIn(t.right, keys, n)
  {
    CompareFlips(keys[t.id], n);
    LessNotComparable(n, keys[t.id]);
    forall x | x in Ids(t.left)
      ensures !Comparable(n, keys[x])
    {
      LessTrans(keys[x], keys[t.id], n);
      LessNotComparable(n, keys[x]);
    }
  }

  /** If it is neither, the root matches, and more may be found on both sides. */
  lemma SearchMatch(t: Tree, keys: Keys, n: Name)
    requires t.Node? && Ordered(t, keys) && Comparable(n, keys[t.id])
    ensures MatchesIn(t, keys, n) == {t.id} + MatchesIn(t.left, keys, n) + MatchesIn(t.right, keys, n)
    ensures t.id !in Ids(t.left) && t.id !in Ids(t.right)
  {
    RootNotBelow(t, keys);
  }

  lemma RootNotBelow(t: Tree, keys: Keys)
    requires t.Node? && Ordered(t, keys)
    ensures t.id !in Ids(t.left) && t.id !in Ids(t.right)
    ensures Ids(t.left) !! Ids(t.right)
  {
    if t.id in Ids(t.left) || t.id in Ids(t.right) {
      LessNotComparable(keys[t.id], keys[t.id]);
    }
    forall x | x in Ids(t.left) && x in Ids(t.right)
      ensures false
    {
      LessTrans(keys[x], keys[t.id], keys[x]);
      LessNotComparable(keys[x], keys[x]);
    }
  }

  // ---------- insertion ----------

  /** A new section goes where the search ended. */
  function Insert(t: Tree, keys: Keys, n: Name, id: nat): Tree
    requires Ids(t) <= keys.Keys
  {
    match t
    case Nil => Node(Nil, id, Nil)
    case Node(l, x, r) =>
      if Compare(n, keys[x]).Less? then Node(Insert(l, keys, n, id), x, r) else Node(l, x, Insert(r, keys, n, id))
  }

  lemma {:induction false} InsertIds(t: Tree, keys: Keys, n: Name, id: nat)
    requires Ids(t) <= keys.Keys
    ensures Ids(Insert(t, keys, n, id)) == Ids(t) + {id}
  {
    match t
    case Nil =>
    case Node(l, x, r) =>
      if Compare(n, keys[x]).Less? { InsertIds(l, keys, n, id); } else { InsertIds(r, keys, n, id); }
  }

  lemma BoundsGrow(ids: set<nat>, keys: Keys, k: Name, n: Name, id: nat)
    requires id !in keys
    ensures AllLess(ids, keys, k) ==>
              && AllLess(ids, keys[id := n], k)
              && (Compare(n, k).Less? ==> AllLess(ids + {id}, keys[id := n], k))
    ensures AllGreater(ids, keys, k) ==>
              && AllGreater(ids, keys[id := n], k)
              && (Compare(k, n).Less? ==> AllGreater(ids + {id}, keys[id := n], k))
  {
    hide Compare;
  }

  /** Insertion keeps the order, provided that the search found no match. */
  lemma {:induction false} InsertOrdered(t: Tree, keys: Keys, n: Name, id: nat)
    requires Ordered(t, keys) && Ids(t) <= keys.Keys && id !in keys && MatchesIn(t, keys, n) == {}
    ensures Ordered(Insert(t, keys, n, id), keys[id := n])
  {
    match t
    case Nil =>
    case Node(l, x, r) =>
      hide Compare, Comparable, AllLess, AllGreater;
      assert x in Ids(t) && !Comparable(n, keys[x]) by { assert x !in MatchesIn(t, keys, n); }
      CompareIs(n, keys[x]);
      CompareFlips(keys[x], n);
      BoundsGrow(Ids(l), keys, keys[x], n, id);
      BoundsGrow(Ids(r), keys, keys[x], n, id);
      if Compare(n, keys[x]).Less? {
        SearchLess(t, keys, n);
        hide MatchesIn;
        InsertOrdered(l, keys, n, id);
        InsertIds(l, keys, n, id);
        OrderedFrame(r, keys, keys[id := n]);
      } else {
        SearchGreater(t, keys, n);
        hide MatchesIn;
        InsertOrdered(r, keys, n, id);
        InsertIds(r, keys, n, id);
        OrderedFrame(l, keys, keys[id := n]);
      }
  }

  lemma {:induction false} OrderedFrame(t: Tree, keys: Keys, keys': Keys)
    requires Ordered(t, keys) && forall x :: x in Ids(t) ==> x in keys && x in keys' && keys'[x] == keys[x]
    ensures Ordered(t, keys')
  {
    match t
    case Nil =>
    case Node(l, id, r) =>
      OrderedFrame(l, keys, keys');
      OrderedFrame(r, keys, keys');
  }

  // ---------- shortening a key in place ----------

  /** A shorter key that is still comparable to no other key sorts where the longer one did. */
  lemma {:induction false} LessShort(a: Name, b: Name, c: Name)
    requires Compare(a, b).Less? && c <= b && !Comparable(c, a)
    ensures Compare(a, c).Less?
  {
    CompareIs(a, b);
    if a[0] == b[0] {
      assert a == [a[0]] + a[1..] && c == [c[0]] + c[1..];
      assert c[1..] <= b[1..];
      assert !Comparable(c[1..], a[1..]);
      LessShort(a[1..], b[1..], c[1..]);
    }
  }

  lemma {:induction false} ShortLess(a: Name, b: Name, c: Name)
    requires Compare(b, a).Less? && c <= b && !Comparable(c, a)
    ensures Compare(c, a).Less?
  {
    CompareIs(b, a);
    if a[0] == b[0] {
      assert a == [a[0]] + a[1..] && c == [c[0]] + c[1..];
      assert c[1..] <= b[1..];
      assert !Comparable(c[1..], a[1..]);
      ShortLess(a[1..], b[1..], c[1..]);
    }
  }

  /** Shortening a key that the shorter name matches alone keeps the tree in order without moving a node. */
  lemma {:induction false} ShortenOrdered(t: Tree, keys: Keys, r: nat, k: Name)
    requires Ordered(t, keys) && r in keys && k <= keys[r]
    requires forall x :: x in Ids(t) && x != r ==> x in keys && !Comparable(k, keys[x])
    ensures Ordered(t, keys[r := k])
  {
    match t
    case Nil =>
    case Node(l, id, rt) =>
      RootNotBelow(t, keys);
      ShortenOrdered(l, keys, r, k);
      ShortenOrdered(rt, keys, r, k);
      forall x | x in Ids(l)
        ensures Compare(keys[r := k][x], keys[r := k][id]).Less?
      {
        if x == r { ShortLess(keys[id], keys[r], k); } else if id == r { LessShort(keys[x], keys[r], k); }
      }
      forall x | x in Ids(rt)
        ensures Compare(keys[r := k][id], keys[r := k][x]).Less?
      {
        if x == r { LessShort(keys[id], keys[r], k); } else if id == r { ShortLess(keys[x], keys[r], k); }
      }
  }

  // ---------- the tree in memory ----------

  /** The links that hold the tree `t` below entry `p` (0 for none). */
  predicate Linked(t: Tree, link: seq<nat>, rlink: seq<nat>, p: nat) {
    match t
    case Nil => p == 0
    case Node(l, id, r) =>
      && p == id && 0 < id < |link| && id < |rlink|
      && Linked(l, link, rlink, link[id]) && Linked(r, link, rlink, rlink[id])
  }

  lemma {:induction false} LinkedFrame(t: Tree, link: seq<nat>, rlink: seq<nat>, link': seq<nat>, rlink': seq<nat>,
                                       p: nat)
    requires Linked(t, link, rlink, p)
    requires |link| <= |link'| && |rlink| <= |rlink'|
    requires forall x :: x in Ids(t) && x < |link| && x < |rlink| ==> link'[x] == link[x] && rlink'[x] == rlink[x]
    ensures Linked(t, link', rlink', p)
  {
    match t
    case Nil =>
    case Node(l, id, r) =>
      LinkedFrame(l, link, rlink, link', rlink', link[id]);
      LinkedFrame(r, link, rlink, link', rlink', rlink[id]);
  }

  /** The node that a search for `n` passes last, and the side it leaves on; `par` and `c` if there is no node. */
  function LastNode(t: Tree, keys: Keys, n: Name, par: nat, c: Order): (nat, Order)
    requires Ids(t) <= keys.Keys
  {
    match t
    case Nil => (par, c)
    case Node(l, id, r) =>
      if Compare(n, keys[id]).Less? then LastNode(l, keys, n, id, Less) else LastNode(r, keys, n, id, Greater)
  }

  lemma {:induction false} LastNodeIn(t: Tree, keys: Keys, n: Name, par: nat, c: Order)
    requires Ids(t) <= keys.Keys && t.Node?
    ensures LastNode(t, keys, n, par, c).0 in Ids(t)
    ensures LastNode(t, keys, n, par, c).1.Less? || LastNode(t, keys, n, par, c).1.Greater?
  {
    if Compare(n, keys[t.id]).Less? {
      if t.left.Node? { LastNodeIn(t.left, keys, n, t.id, Less); }
    } else {
      if t.right.Node? { LastNodeIn(t.right, keys, n, t.id, Greater); }
    }
  }

  /** Setting one link of that node inserts the new one. */
  lemma {:induction false} InsertLinked(t: Tree, keys: Keys, n: Name, id: nat, link: seq<nat>, rlink: seq<nat>,
                                        link': seq<nat>, rlink': seq<nat>, p: nat, par: nat, c: Order)
    requires Ordered(t, keys) && Ids(t) <= keys.Keys && Linked(t, link, rlink, p) && t.Node? && id !in Ids(t)
    requires |link| <= |link'| && |rlink| <= |rlink'| && 0 < id < |link'| && id < |rlink'|
    requires link'[id] == 0 && rlink'[id] == 0
    requires var last := LastNode(t, keys, n, par, c);
      && (forall x :: x in Ids(t) && x < |link| && x < |rlink| ==>
            && link'[x] == (if x == last.0 && last.1.Less? then id else link[x])
            && rlink'[x] == (if x == last.0 && !last.1.Less? then id else rlink[x]))
    ensures Linked(Insert(t, keys, n, id), link', rlink', p)
  {
    RootNotBelow(t, keys);
    var x := t.id;
    if Compare(n, keys[x]).Less? {
      if t.left.Node? {
        LastNodeIn(t.left, keys, n, x, Less);
        InsertLinked(t.left, keys, n, id, link, rlink, link', rlink', link[x], x, Less);
      }
      LinkedFrame(t.right, link, rlink, link', rlink', rlink[x]);
    } else {
      if t.right.Node? {
        LastNodeIn(t.right, keys, n, x, Greater);
        InsertLinked(t.right, keys, n, id, link, rlink, link', rlink', rlink[x], x, Greater);
      }
      LinkedFrame(t.left, link, rlink, link', rlink', link[x]);
    }
  }
}

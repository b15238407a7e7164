/** The linked lists of the index sort: `blink` links the names, and every name is in the list of its place. */
module IndexLists {
  import opened Bytes
  import opened IndexKeys
  import opened IndexOrder

  /** A `sort_node`. */
  datatype Entry = Entry(depth: nat, head: nat)

  /** The names from `head` on, as they are linked. */
  predicate IsList(blink: seq<nat>, head: nat, l: seq<nat>)
    decreases |l|
  {
    if l == [] then head == 0
    else head == l[0] && 0 < head < |blink| && IsList(blink, blink[head], l[1..])
  }

  ghost predicate ListAt(blink: seq<nat>, at: Places, head: nat, l: seq<nat>, p: Place) {
    IsList(blink, head, l) && forall x: nat :: x in l <==> x in at && at[x] == p
  }

  ghost predicate BucketsOk(blink: seq<nat>, bucket: seq<nat>, at: Places, lists: seq<seq<nat>>) {
    |bucket| == 256 == |lists| && forall c: Byte :: ListAt(blink, at, bucket[c], lists[c], InBucket(c))
  }

  ghost predicate StackOk(blink: seq<nat>, entries: seq<Entry>, at: Places, lists: seq<seq<nat>>) {
    |entries| == |lists|
    && forall i: nat :: i < |entries| ==> lists[i] != [] && ListAt(blink, at, entries[i].head, lists[i], OnStack(i))
  }

  lemma {:induction false} ListFrame(blink: seq<nat>, blink': seq<nat>, head: nat, l: seq<nat>)
    requires IsList(blink, head, l) && |blink'| >= |blink|
    requires forall x: nat :: x in l && x < |blink| ==> blink'[x] == blink[x]
    ensures IsList(blink', head, l)
    decreases |l|
  {
    if l != [] {
      assert forall x: nat :: x in l[1..] ==> x in l;
      ListFrame(blink, blink', blink[head], l[1..]);
    }
  }

  /** A list has no name twice, because it ends. */
  lemma {:induction false} ListDistinct(blink: seq<nat>, head: nat, l: seq<nat>)
    requires IsList(blink, head, l)
    ensures forall i, j :: 0 <= i < j < |l| ==> l[i] != l[j]
    decreases |l|
  {
    if l != [] {
      ListDistinct(blink, blink[head], l[1..]);
      forall j | 0 < j < |l|
        ensures l[0] != l[j]
      {
        if l[0] == l[j] {
          ListFrom(blink, head, l, j);
          SameLength(blink, head, l, l[j..]);
        }
      }
    }
  }

  lemma {:induction false} ListFrom(blink: seq<nat>, head: nat, l: seq<nat>, j: nat)
    requires IsList(blink, head, l) && j < |l|
    ensures IsList(blink, l[j], l[j..])
    decreases |l|
  {
    if j > 0 {
      ListFrom(blink, blink[head], l[1..], j - 1);
      assert l[1..][j - 1..] == l[j..];
    }
  }

  lemma {:induction false} SameLength(blink: seq<nat>, head: nat, l: seq<nat>, m: seq<nat>)
    requires IsList(blink, head, l) && IsList(blink, head, m)
    ensures |l| == |m|
    decreases |l|
  {
    if l != [] && m != [] {
      SameLength(blink, blink[head], l[1..], m[1..]);
    }
  }

  /** A list elsewhere is not affected when the name `x` changes its place and its link. */
  lemma ListElsewhere(blink: seq<nat>, at: Places, head: nat, l: seq<nat>, p: Place, x: nat, v: nat, q: Place)
    requires ListAt(blink, at, head, l, p) && x in at && at[x] != p && q != p && x < |blink|
    ensures ListAt(blink[x := v], at[x := q], head, l, p)
  {
    ListFrame(blink, blink[x := v], head, l);
  }

  /** The name `x` is put in front of the list at place `q`. */
  lemma ListFront(blink: seq<nat>, at: Places, head: nat, l: seq<nat>, x: nat, q: Place)
    requires ListAt(blink, at, head, l, q) && x in at && at[x] != q && 0 < x < |blink|
    ensures ListAt(blink[x := head], at[x := q], x, [x] + l, q)
  {
    ListFrame(blink, blink[x := head], head, l);
    assert ([x] + l)[1..] == l;
  }

  /** A name that waits goes into bucket `c`. */
  lemma IntoBucket(blink: seq<nat>, bucket: seq<nat>, entries: seq<Entry>, at: Places, inBucket: seq<seq<nat>>,
                   onStack: seq<seq<nat>>, x: nat, c: Byte)
    requires BucketsOk(blink, bucket, at, inBucket) && StackOk(blink, entries, at, onStack)
    requires x in at && at[x].Waiting? && 0 < x < |blink|
    ensures var blink', at' := blink[x := bucket[c]], at[x := InBucket(c)];
      && BucketsOk(blink', bucket[c as int := x], at', inBucket[c as int := [x] + inBucket[c]])
      && StackOk(blink', entries, at', onStack)
  {
    hide ListAt;
    var blink', at' := blink[x := bucket[c]], at[x := InBucket(c)];
    forall b: Byte
      ensures ListAt(blink', at', bucket[c as int := x][b], inBucket[c as int := [x] + inBucket[c]][b], InBucket(b))
    {
      if b == c {
        ListFront(blink, at, bucket[c], inBucket[c], x, InBucket(c));
      } else {
        ListElsewhere(blink, at, bucket[b], inBucket[b], InBucket(b), x, bucket[c], InBucket(c));
      }
    }
    forall i: nat | i < |entries|
      ensures ListAt(blink', at', entries[i].head, onStack[i], OnStack(i))
    {
      ListElsewhere(blink, at, entries[i].head, onStack[i], OnStack(i), x, bucket[c], InBucket(c));
    }
  }

  /** The other names that wait. */
  lemma RestWaits(blink: seq<nat>, at: Places, head: nat, l: seq<nat>, v: nat, q: Place)
    requires ListAt(blink, at, head, l, Waiting) && l != [] && !q.Waiting?
    ensures head in at && at[head].Waiting? && 0 < head < |blink|
    ensures ListAt(blink[head := v], at[head := q], blink[head], l[1..], Waiting)
  {
    ListDistinct(blink, head, l);
    assert head in l;
    ListFrame(blink, blink[head := v], blink[head], l[1..]);
    forall x: nat
      ensures x in l[1..] <==> x in at[head := q] && at[head := q][x] == Waiting
    {
      assert x in l <==> x == l[0] || x in l[1..];
    }
  }

  lemma ListMoved(blink: seq<nat>, at: Places, head: nat, l: seq<nat>, p: Place, q: Place)
    requires ListAt(blink, at, head, l, p) && forall x :: x in at ==> at[x] != q
    ensures ListAt(blink, MoveAll(at, p, q), head, l, q)
    ensures p != q ==> ListAt(blink, MoveAll(at, p, q), 0, [], p)
  {
  }

  lemma ListStays(blink: seq<nat>, at: Places, head: nat, l: seq<nat>, p: Place, q: Place, r: Place)
    requires ListAt(blink, at, head, l, r) && r != p && r != q
    ensures ListAt(blink, MoveAll(at, p, q), head, l, r)
  {
  }

  /** Bucket `c` goes onto the stack. */
  lemma OntoStack(blink: seq<nat>, bucket: seq<nat>, entries: seq<Entry>, at: Places, inBucket: seq<seq<nat>>,
                  onStack: seq<seq<nat>>, c: Byte, depth: nat)
    requires BucketsOk(blink, bucket, at, inBucket) && StackOk(blink, entries, at, onStack) && bucket[c] != 0
    requires forall x :: x in at && at[x].OnStack? ==> at[x].i < |entries|
    ensures var at' := MoveAll(at, InBucket(c), OnStack(|entries|));
      && BucketsOk(blink, bucket[c as int := 0], at', inBucket[c as int := []])
      && StackOk(blink, entries + [Entry(depth, bucket[c])], at', onStack + [inBucket[c]])
  {
    hide ListAt;
    var n := |entries|;
    var at' := MoveAll(at, InBucket(c), OnStack(n));
    ListMoved(blink, at, bucket[c], inBucket[c], InBucket(c), OnStack(n));
    forall b: Byte
      ensures ListAt(blink, at', bucket[c as int := 0][b], inBucket[c as int := []][b], InBucket(b))
    {
      if b != c {
        ListStays(blink, at, bucket[b], inBucket[b], InBucket(c), OnStack(n), InBucket(b));
      }
    }
    forall i: nat | i < n
      ensures ListAt(blink, at', entries[i].head, onStack[i], OnStack(i))
    {
      ListStays(blink, at, entries[i].head, onStack[i], InBucket(c), OnStack(n), OnStack(i));
    }
    NotEmpty(blink, at, bucket[c], inBucket[c], InBucket(c));
  }

  lemma NotEmpty(blink: seq<nat>, at: Places, head: nat, l: seq<nat>, p: Place)
    requires ListAt(blink, at, head, l, p)
    ensures head != 0 <==> l != []
    ensures head != 0 ==> head in at && at[head] == p && 0 < head < |blink|
    ensures head != 0 ==> (blink[head] == 0 <==> |l| == 1)
  {
    if l != [] {
      assert l[0] in l;
      assert IsList(blink, blink[head], l[1..]);
      assert blink[head] == 0 <==> l[1..] == [];
    }
  }

  /** The list on the top of the stack is taken off, to `q`. */
  lemma OffStack(blink: seq<nat>, bucket: seq<nat>, entries: seq<Entry>, at: Places, inBucket: seq<seq<nat>>,
                 onStack: seq<seq<nat>>, q: Place)
    requires BucketsOk(blink, bucket, at, inBucket) && StackOk(blink, entries, at, onStack) && entries != []
    requires q.Waiting? || q.Printed?
    ensures var top := |entries| - 1; var at' := MoveAll(at, OnStack(top), q);
      BucketsOk(blink, bucket, at', inBucket) && StackOk(blink, entries[..top], at', onStack[..top])
  {
    hide ListAt;
    var top := |entries| - 1;
    var at' := MoveAll(at, OnStack(top), q);
    forall b: Byte
      ensures ListAt(blink, at', bucket[b], inBucket[b], InBucket(b))
    {
      ListStays(blink, at, bucket[b], inBucket[b], OnStack(top), q, InBucket(b));
    }
    forall i: nat | i < top
      ensures ListAt(blink, at', entries[i].head, onStack[i], OnStack(i))
    {
      ListStays(blink, at, entries[i].head, onStack[i], OnStack(top), q, OnStack(i));
    }
  }

  /** The names in the first `n` lists of the stack. */
  function InEntries(at: Places, n: nat): set<nat> {
    set x | x in at && at[x].OnStack? && at[x].i < n
  }

  ghost predicate Inhabited(at: Places, i: nat) {
    exists x :: x in at && at[x] == OnStack(i)
  }

  lemma {:induction false} ManyInEntries(at: Places, n: nat)
    requires forall i: nat :: i < n ==> Inhabited(at, i)
    ensures |InEntries(at, n)| >= n
  {
    if n > 0 {
      ManyInEntries(at, n - 1);
      assert Inhabited(at, n - 1);
      var x :| x in at && at[x] == OnStack(n - 1);
      Subset(InEntries(at, n - 1) + {x}, InEntries(at, n));
    }
  }

  lemma {:induction false} Subset(a: set<nat>, b: set<nat>)
    requires a <= b
    ensures |a| <= |b|
  {
    if a != {} {
      var x :| x in a;
      Subset(a - {x}, b - {x});
    }
  }

  /** While a bucket is not empty, there are fewer entries on the stack than names: every entry has a name of its
      own. */
  lemma EntriesFit(blink: seq<nat>, bucket: seq<nat>, entries: seq<Entry>, at: Places, inBucket: seq<seq<nat>>,
                   onStack: seq<seq<nat>>, b: Byte)
    requires BucketsOk(blink, bucket, at, inBucket) && StackOk(blink, entries, at, onStack) && bucket[b] != 0
    ensures |entries| < |at.Keys|
  {
    forall i: nat | i < |entries|
      ensures Inhabited(at, i)
    {
      var x := onStack[i][0];
      assert x in onStack[i] && ListAt(blink, at, entries[i].head, onStack[i], OnStack(i));
    }
    ManyInEntries(at, |entries|);
    assert ListAt(blink, at, bucket[b], inBucket[b], InBucket(b));
    var x := inBucket[b][0];
    assert x in inBucket[b];
    Subset(InEntries(at, |entries|) + {x}, at.Keys);
  }
}

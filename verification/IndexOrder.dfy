/** Where the names are while the index is sorted, and what the sort keeps true about their order. */
module IndexOrder {
  import opened Bytes
  import opened IndexKeys

  /** A name is still to be put into a bucket, in a bucket, in a list on the stack, or printed. */
  datatype Place = Waiting | InBucket(c: Byte) | OnStack(i: nat) | Printed

  type Places = map<nat, Place>

  predicate Moving(p: Place) {
    p.Waiting? || p.InBucket?
  }

  predicate Known(names: seq<Name>, at: Places) {
    forall x :: x in at ==> 0 < x < |names| && Sortable(names[x])
  }

  /** What the stack means for two names `m` and `n` at places `p` and `q`: names in one list agree up to its depth,
      and come before those in the lists below; what has been printed comes before all the rest. */
  ghost predicate PairStacked(m: Name, p: Place, n: Name, q: Place, depth: seq<nat>)
    requires Sortable(m) && Sortable(n)
  {
    && (p.OnStack? ==>
          && p.i < |depth| && depth[p.i] <= INFINITY
          && (0 < depth[p.i] < INFINITY ==> KeyAt(m, depth[p.i] - 1) != 0)
          && (q == p ==> Agree(m, n, depth[p.i])) && (q.OnStack? && q.i < p.i ==> Less(m, n)))
    && (p.Printed? && !q.Printed? ==> Less(m, n))
  }

  ghost predicate Stacked(names: seq<Name>, at: Places, depth: seq<nat>)
    requires Known(names, at)
  {
    forall x, y :: x in at && y in at ==> PairStacked(names[x], at[x], names[y], at[y], depth)
  }

  /** What is being split at depth `d`: its names agree so far and come before everything on the stack below `base`. */
  ghost predicate PairSplitting(m: Name, p: Place, n: Name, q: Place, base: nat, d: nat)
    requires Sortable(m) && Sortable(n)
  {
    && d < INFINITY
    && (Moving(p) ==>
          && (d > 0 ==> KeyAt(m, d - 1) != 0)
          && (Moving(q) ==> Agree(m, n, d)) && (q.OnStack? && q.i < base ==> Less(m, n)))
    && (p.InBucket? ==> Code(m, d) == p.c)
  }

  ghost predicate Splitting(names: seq<Name>, at: Places, base: nat, d: nat)
    requires Known(names, at)
  {
    d < INFINITY && forall x, y :: x in at && y in at ==> PairSplitting(names[x], at[x], names[y], at[y], base, d)
  }

  /** What `unbucket` has moved: buckets with a greater place than `k`. */
  ghost predicate PairUnbucketing(m: Name, p: Place, n: Name, q: Place, base: nat, d: nat, k: int)
    requires Sortable(m) && Sortable(n)
  {
    && !p.Waiting?
    && (p.InBucket? ==>
          KeyAt(m, d) <= k && (q.OnStack? && q.i >= base ==> Agree(m, n, d) && KeyAt(n, d) > k))
  }

  ghost predicate Unbucketing(names: seq<Name>, at: Places, base: nat, d: nat, k: int)
    requires Known(names, at)
  {
    forall x, y :: x in at && y in at ==> PairUnbucketing(names[x], at[x], names[y], at[y], base, d, k)
  }

  /** All names at one place go to another. */
  function Moved(p: Place, from: Place, to: Place): Place {
    if p == from then to else p
  }

  function MoveAll(at: Places, from: Place, to: Place): (r: Places)
    ensures r.Keys == at.Keys
  {
    map x | x in at :: Moved(at[x], from, to)
  }

  // ---------- the steps ----------

  /** A name goes into the bucket of its next character. */
  lemma BucketStep(names: seq<Name>, at: Places, depth: seq<nat>, base: nat, d: nat, x: nat)
    requires Known(names, at) && Stacked(names, at, depth) && Splitting(names, at, base, d) && x in at && at[x].Waiting?
    ensures var at' := at[x := InBucket(Code(names[x], d))];
      Known(names, at') && Stacked(names, at', depth) && Splitting(names, at', base, d)
  {
    hide Less, Agree, KeyAt, Code, Sortable;
    var at' := at[x := InBucket(Code(names[x], d))];
    forall y, z | y in at && z in at
      ensures PairStacked(names[y], at'[y], names[z], at'[z], depth)
      ensures PairSplitting(names[y], at'[y], names[z], at'[z], base, d)
    {
      assert PairStacked(names[y], at[y], names[z], at[z], depth);
      assert PairSplitting(names[y], at[y], names[z], at[z], base, d);
    }
  }

  /** A bucket goes onto the stack. */
  lemma PushStep(names: seq<Name>, at: Places, depth: seq<nat>, base: nat, d: nat, k: nat)
    requires Known(names, at) && Stacked(names, at, depth) && Splitting(names, at, base, d)
    requires k < RANKS && Unbucketing(names, at, base, d, k) && base <= |depth|
    ensures var at' := MoveAll(at, InBucket(Collate(k)), OnStack(|depth|));
      var depth' := depth + [if k == 0 then INFINITY else d + 1];
      && Known(names, at') && Stacked(names, at', depth') && Splitting(names, at', base, d)
      && Unbucketing(names, at', base, d, k - 1)
  {
    hide Less, Agree, KeyAt, Code, Sortable, Collate, PairStacked, PairSplitting, PairUnbucketing;
    var at' := MoveAll(at, InBucket(Collate(k)), OnStack(|depth|));
    var depth' := depth + [if k == 0 then INFINITY else d + 1];
    forall y, z | y in at && z in at
      ensures PairStacked(names[y], at'[y], names[z], at'[z], depth')
      ensures PairSplitting(names[y], at'[y], names[z], at'[z], base, d)
      ensures PairUnbucketing(names[y], at'[y], names[z], at'[z], base, d, k - 1)
    {
      assert PairStacked(names[y], at[y], names[z], at[z], depth)
             && PairStacked(names[z], at[z], names[y], at[y], depth);
      assert PairSplitting(names[y], at[y], names[z], at[z], base, d)
             && PairSplitting(names[z], at[z], names[y], at[y], base, d);
      assert PairUnbucketing(names[y], at[y], names[z], at[z], base, d, k)
             && PairUnbucketing(names[z], at[z], names[y], at[y], base, d, k);
      PushPair(names[y], at[y], names[z], at[z], depth, base, d, k);
    }
  }

  lemma PushPair(m: Name, p: Place, n: Name, q: Place, depth: seq<nat>, base: nat, d: nat, k: nat)
    requires Sortable(m) && Sortable(n) && k < RANKS && base <= |depth|
    requires PairStacked(m, p, n, q, depth) && PairStacked(n, q, m, p, depth)
    requires PairSplitting(m, p, n, q, base, d) && PairSplitting(n, q, m, p, base, d)
    requires PairUnbucketing(m, p, n, q, base, d, k) && PairUnbucketing(n, q, m, p, base, d, k)
    ensures var p', q' :=
            Moved(p, InBucket(Collate(k)), OnStack(|depth|)), Moved(q, InBucket(Collate(k)), OnStack(|depth|));
      var depth' := depth + [if k == 0 then INFINITY else d + 1];
      && PairStacked(m, p', n, q', depth') && PairSplitting(m, p', n, q', base, d)
      && PairUnbucketing(m, p', n, q', base, d, k - 1)
  {
    hide KeyAt, Code, Sortable, Collate, Rank;
    BucketRank(m, p, d, k);
    BucketRank(n, q, d, k);
    if p == InBucket(Collate(k)) {
      if q.OnStack? && q.i >= base {
        assert LessAt(m, n, d);
      }
      if q == p && k == 0 {
        EndedAgree(m, n, d);
      }
    }
  }

  lemma BucketRank(m: Name, p: Place, d: nat, k: nat)
    requires Sortable(m) && k < RANKS && (d > 0 && p.InBucket? ==> KeyAt(m, d - 1) != 0)
    requires p.InBucket? ==> Code(m, d) == p.c
    ensures p.InBucket? ==> (p.c == Collate(k) <==> KeyAt(m, d) == k)
  {
    if p.InBucket? {
      KeyNow(m, d);
      CollateInjective(k);
    }
  }

  /** The list on the top of the stack is taken to be split. */
  lemma TakeStep(names: seq<Name>, at: Places, depth: seq<nat>, top: nat)
    requires Known(names, at) && Stacked(names, at, depth) && |depth| == top + 1 && depth[top] < INFINITY
    requires forall x :: x in at ==> !Moving(at[x])
    ensures var at' := MoveAll(at, OnStack(top), Waiting);
      Known(names, at') && Stacked(names, at', depth[..top]) && Splitting(names, at', top, depth[top])
  {
    hide Less, Agree, KeyAt, Code, Sortable;
    var at' := MoveAll(at, OnStack(top), Waiting);
    forall y, z | y in at && z in at
      ensures PairStacked(names[y], at'[y], names[z], at'[z], depth[..top])
      ensures PairSplitting(names[y], at'[y], names[z], at'[z], top, depth[top])
    {
      assert PairStacked(names[y], at[y], names[z], at[z], depth);
    }
  }

  /** The list on the top of the stack is printed. */
  lemma PrintStep(names: seq<Name>, at: Places, depth: seq<nat>, top: nat)
    requires Known(names, at) && Stacked(names, at, depth) && |depth| == top + 1
    requires forall x :: x in at ==> !Moving(at[x])
    ensures var at' := MoveAll(at, OnStack(top), Printed);
      Known(names, at') && Stacked(names, at', depth[..top]) && forall x :: x in at' ==> !Moving(at'[x])
  {
    hide Less, Agree, KeyAt, Code, Sortable;
    var at' := MoveAll(at, OnStack(top), Printed);
    forall y, z | y in at && z in at
      ensures PairStacked(names[y], at'[y], names[z], at'[z], depth[..top])
    {
      assert PairStacked(names[y], at[y], names[z], at[z], depth);
    }
  }
}

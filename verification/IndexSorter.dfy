/** The index of CWEAVE: names are sorted by their characters with linked buckets and an explicit stack, and printed. */
module IndexSorters {
  import opened Bytes
  import opened IndexKeys
  import opened IndexOrder
  import opened IndexLists

  ghost function Depths(entries: seq<Entry>): (d: seq<nat>)
    ensures |d| == |entries| && forall i :: 0 <= i < |entries| ==> d[i] == entries[i].depth
  {
    seq(|entries|, i requires 0 <= i < |entries| => entries[i].depth)
  }

  /** A bound on the steps that are left: the names that are not yet printed, by the depths that are left. */
  ghost function Work(entries: seq<Entry>, lists: seq<seq<nat>>): nat
    requires |entries| == |lists|
  {
    if entries == [] then 0
    else
      var top := |entries| - 1;
      |lists[top]| * Left(entries[top].depth) + Work(entries[..top], lists[..top])
  }

  function Left(depth: nat): nat {
    if depth <= INFINITY then INFINITY + 1 - depth else 0
  }

  lemma WorkAdd(entries: seq<Entry>, lists: seq<seq<nat>>, e: Entry, l: seq<nat>)
    requires |entries| == |lists|
    ensures Work(entries + [e], lists + [l]) == |l| * Left(e.depth) + Work(entries, lists)
  {
    assert (entries + [e])[..|entries|] == entries && (lists + [l])[..|lists|] == lists;
  }

  function Count(lists: seq<seq<nat>>): nat {
    if lists == [] then 0 else |lists[0]| + Count(lists[1..])
  }

  lemma {:induction false} CountUpdate(lists: seq<seq<nat>>, c: nat, l: seq<nat>)
    requires c < |lists|
    ensures Count(lists[c := l]) + |lists[c]| == Count(lists) + |l|
  {
    if c == 0 {
      assert lists[0 := l][1..] == lists[1..];
    } else {
      assert lists[c := l][1..] == lists[1..][c - 1 := l];
      CountUpdate(lists[1..], c - 1, l);
    }
  }

  lemma {:induction false} CountZero(lists: seq<seq<nat>>)
    requires forall c :: 0 <= c < |lists| ==> lists[c] == []
    ensures Count(lists) == 0
  {
    if lists != [] {
      CountZero(lists[1..]);
    }
  }

  /** The names at `i` and `j` of the index are in order. */
  ghost predicate InOrder(names: seq<Name>, x: nat, y: nat) {
    && x < |names| && y < |names| && Sortable(names[x]) && Sortable(names[y])
    && (Less(names[x], names[y]) || SameKey(names[x], names[y]))
  }

  ghost predicate Sorted(names: seq<Name>, printed: seq<nat>) {
    forall i, j :: 0 <= i < j < |printed| ==> InOrder(names, printed[i], printed[j])
  }

  /** The cross-referenced names from number `i` on wait, and the others do not. */
  ghost predicate ToDo(order: seq<nat>, crossed: seq<bool>, at: map<nat, Place>, i: nat)
    requires forall j :: 0 <= j < |order| ==> order[j] < |crossed|
  {
    && at.Keys == Listed(order, crossed)
    && forall j :: 0 <= j < |order| && crossed[order[j]] ==> order[j] in at && (at[order[j]].Waiting? <==> j >= i)
  }

  lemma AllToDo(order: seq<nat>, crossed: seq<bool>, at: map<nat, Place>)
    requires forall j :: 0 <= j < |order| ==> order[j] < |crossed|
    requires at.Keys == Listed(order, crossed) && forall x :: x in at ==> at[x].Waiting?
    ensures ToDo(order, crossed, at, 0)
  {
  }

  lemma ToDoNext(order: seq<nat>, crossed: seq<bool>, at: map<nat, Place>, i: nat, c: Byte)
    requires forall j :: 0 <= j < |order| ==> order[j] < |crossed|
    requires ToDo(order, crossed, at, i) && i < |order| && Distinct(order)
    ensures if crossed[order[i]] then
              && order[i] in at && at[order[i]].Waiting? && ToDo(order, crossed, at[order[i] := InBucket(c)], i + 1)
            else ToDo(order, crossed, at, i + 1)
  {
  }

  lemma NothingToDo(order: seq<nat>, crossed: seq<bool>, at: map<nat, Place>)
    requires forall j :: 0 <= j < |order| ==> order[j] < |crossed|
    requires ToDo(order, crossed, at, |order|)
    ensures at.Keys == Listed(order, crossed) && forall x :: x in at ==> !at[x].Waiting?
  {
    forall x | x in at
      ensures !at[x].Waiting?
    {
      assert x in Listed(order, crossed);
      var j :| 0 <= j < |order| && order[j] == x;
    }
  }

  predicate Distinct(l: seq<nat>) {
    forall i, j :: 0 <= i < j < |l| ==> l[i] != l[j]
  }

  ghost predicate PrintedOk(names: seq<Name>, at: Places, printed: seq<nat>)
    requires Known(names, at)
  {
    && (forall x: nat :: x in printed <==> x in at && at[x].Printed?)
    && Distinct(printed) && Sorted(names, printed)
  }

  class IndexSorter {
    const names: seq<Name>
    const bucket: array<nat>
    const blink: array<nat>
    /** `scrap_info`, used for the stack; the entry at 0 is not used. */
    const sortInfo: array<Entry>
    var sortPtr: nat
    var printed: seq<nat>

    ghost var at: Places
    ghost var inBucket: seq<seq<nat>>
    ghost var onStack: seq<seq<nat>>

    constructor (names: seq<Name>, size: nat)
      requires size > 0
      ensures this.names == names && sortInfo.Length == size && printed == []
      ensures fresh(bucket) && fresh(blink) && fresh(sortInfo) && bucket.Length == 256 && blink.Length == |names|
      ensures bucket != blink
    {
      this.names := names;
      bucket := new nat[256];
      blink := new nat[|names|];
      sortInfo := new Entry[size](_ => Entry(0, 0));
      sortPtr := 0;
      printed := [];
      at := map[];
      inBucket, onStack := [], [];
    }

    ghost function Entries(): seq<Entry>
      requires sortPtr < sortInfo.Length
      reads this, sortInfo
    {
      sortInfo[1..sortPtr + 1]
    }

    /** Every name is in the list of its place. */
    ghost predicate Linked()
      reads this, bucket, blink, sortInfo
    {
      && bucket != blink && bucket.Length == 256 && blink.Length == |names| && sortPtr < sortInfo.Length
      && Known(names, at)
      && BucketsOk(blink[..], bucket[..], at, inBucket)
      && StackOk(blink[..], Entries(), at, onStack)
      && Stacked(names, at, Depths(Entries()))
      && PrintedOk(names, at, printed)
    }

    /** All names are on the stack or printed, and the buckets are empty. */
    ghost predicate Valid()
      reads this, bucket, blink, sortInfo
    {
      Linked() && forall x :: x in at ==> !Moving(at[x])
    }

    /** A name goes to the front of bucket `c`. */
    method PutInBucket(x: nat, c: Byte, ghost base: nat, ghost d: nat)
      requires Linked() && Splitting(names, at, base, d) && x in at && at[x].Waiting? && c == Code(names[x], d)
      modifies this`at, this`inBucket, bucket, blink
      ensures Linked() && Splitting(names, at, base, d) && at == old(at)[x := InBucket(c)]
      ensures blink[..] == old(blink[..])[x := old(bucket[c])] && Count(inBucket) == old(Count(inBucket)) + 1
    {
      hide Less, Agree, KeyAt, Code, ListAt, PairStacked, PairSplitting, Splitting, Stacked;
      BucketStep(names, at, Depths(Entries()), base, d, x);
      IntoBucket(blink[..], bucket[..], Entries(), at, inBucket, onStack, x, c);
      PrintedStays(names, at, x, InBucket(c), printed);
      CountUpdate(inBucket, c as nat, [x] + inBucket[c]);
      blink[x] := bucket[c];
      bucket[c] := x;
      inBucket := inBucket[c as int := [x] + inBucket[c]];
      at := at[x := InBucket(c)];
    }

    /** All buckets are made empty. */
    method ClearBuckets()
      requires bucket.Length == 256
      modifies bucket
      ensures forall k :: 0 <= k < 256 ==> bucket[k] == 0
    {
      for c := 0 to 256
        invariant forall k :: 0 <= k < c ==> bucket[k] == 0
      {
        bucket[c] := 0;
      }
    }

    /** The buckets are filled with the names of `order` that have cross-references. */
    method FillBuckets(order: seq<nat>, crossed: seq<bool>)
      requires bucket != blink && bucket.Length == 256 && blink.Length == |names| && 0 < sortInfo.Length
               && printed == []
      requires |crossed| == |names| && forall i :: 0 <= i < |order| ==>
               0 < order[i] < |names| && Sortable(names[order[i]])
      requires Distinct(order)
      modifies this`sortPtr, this`at, this`inBucket, this`onStack, bucket, blink
      ensures Linked() && sortPtr == 0 && Splitting(names, at, 0, 0) && forall x :: x in at ==> !at[x].Waiting?
      ensures at.Keys == Listed(order, crossed)
    {
      hide Less, Agree, KeyAt, Code, ListAt, PairStacked, PairSplitting, Splitting, Stacked, BucketsOk, Distinct, ToDo,
        StackOk, PrintedOk;
      ClearBuckets();
      sortPtr := 0;
      inBucket, onStack := seq(256, _ => []), [];
      at := map x | x in Listed(order, crossed) :: Waiting;
      AllWait(names, at, blink[..], bucket[..], inBucket);
      assert Entries() == [] && Depths(Entries()) == [];
      AllToDo(order, crossed, at);
      for i := 0 to |order|
        invariant Linked() && Splitting(names, at, 0, 0) && sortPtr == 0 && ToDo(order, crossed, at, i)
        modifies this`at, this`inBucket, bucket, blink
      {
        var x := order[i];
        ToDoNext(order, crossed, at, i, FirstCode(names[x]));
        if crossed[x] {
          PutInBucket(x, FirstCode(names[x]), 0, 0);
        }
      }
      NothingToDo(order, crossed, at);
    }

    /** `unbucket`: the buckets go onto the stack, from the last one in the collating sequence to the first. */
    method Unbucket(d: nat) returns (ok: bool)
      requires Linked() && 0 < d <= INFINITY && Splitting(names, at, sortPtr, d - 1) && forall x :: x in at ==>
               !at[x].Waiting?
      modifies this`sortPtr, this`at, this`inBucket, this`onStack, bucket, sortInfo
      ensures at.Keys == old(at.Keys) && (ok ==> Valid())
      ensures !ok ==> sortPtr + 1 == sortInfo.Length <= |at.Keys|
      ensures ok ==> Work(Entries(), onStack) <= old(Work(Entries(), onStack)) + old(Count(inBucket)) * Left(d)
    {
      hide Less, Agree, KeyAt, Code, ListAt, PairStacked, PairSplitting, PairUnbucketing, Splitting, Stacked,
           Unbucketing, Work, Sortable;
      ghost var base := sortPtr;
      var c: int := RANKS - 1;
      UnbucketStart(names, at, Depths(Entries()), base, d - 1);
      while c >= 0
        invariant -1 <= c < RANKS && base <= sortPtr && Linked()
        invariant Splitting(names, at, base, d - 1) && Unbucketing(names, at, base, d - 1, c)
        invariant at.Keys == old(at.Keys)
        invariant Work(Entries(), onStack) + Count(inBucket) * Left(d) <= old(Work(Entries(), onStack))
                  + old(Count(inBucket)) * Left(d)
        decreases c
      {
        var b := Collate(c);
        if bucket[b] != 0 {
          if sortPtr + 1 == sortInfo.Length {
            EntriesFit(blink[..], bucket[..], Entries(), at, inBucket, onStack, b);
            return false;
          }
          PushBucket(c, d, base);
        } else {
          EmptyBucket(names, blink[..], bucket[..], at, inBucket, base, d - 1, c);
        }
        c := c - 1;
      }
      AllUnbucketed(names, at, base, d - 1);
      return true;
    }

    /** The bucket of one character goes onto the stack. */
    method PushBucket(c: nat, d: nat, ghost base: nat)
      requires Linked() && 0 < d <= INFINITY && Splitting(names, at, base, d - 1) && base <= sortPtr
      requires c < RANKS && Unbucketing(names, at, base, d - 1, c) && bucket[Collate(c)] != 0
               && sortPtr + 1 < sortInfo.Length
      modifies this`sortPtr, this`at, this`inBucket, this`onStack, bucket, sortInfo
      ensures Linked() && Splitting(names, at, base, d - 1) && Unbucketing(names, at, base, d - 1, c - 1)
      ensures sortPtr == old(sortPtr) + 1 && at.Keys == old(at.Keys)
      ensures Work(Entries(), onStack)
              + Count(inBucket) * Left(d) <= old(Work(Entries(), onStack) + Count(inBucket) * Left(d))
    {
      hide Less, Agree, KeyAt, Code, ListAt, PairStacked, PairSplitting, PairUnbucketing, Splitting, Unbucketing, Work,
           Sortable, Collate;
      var b := Collate(c);
      ghost var entries, depths := Entries(), Depths(Entries());
      ghost var depth := if c == 0 then INFINITY else d;
      PushStep(names, at, depths, base, d - 1, c);
      StackPlaces(names, at, depths);
      OntoStack(blink[..], bucket[..], entries, at, inBucket, onStack, b, depth);
      PrintedMoved(names, at, InBucket(b), OnStack(sortPtr), printed);
      WorkAdd(entries, onStack, Entry(depth, bucket[b]), inBucket[b]);
      CountUpdate(inBucket, b as nat, []);
      Weights(|inBucket[b]|, Count(inBucket), Count(inBucket[b as int := []]), depth, d);
      at := MoveAll(at, InBucket(b), OnStack(sortPtr));
      onStack := onStack + [inBucket[b]];
      inBucket := inBucket[b as int := []];
      sortPtr := sortPtr + 1;
      sortInfo[sortPtr] := Entry(if c == 0 then INFINITY else d, bucket[b]);
      bucket[b] := 0;
      assert Entries() == entries + [Entry(depth, old(bucket[b]))];
      assert Depths(Entries()) == depths + [depth];
    }

    /** The names from `head` on are put into buckets by their next character. */
    method SplitList(head: nat, ghost l: seq<nat>, depth: nat)
      requires Linked() && Splitting(names, at, sortPtr, depth) && ListAt(blink[..], at, head, l, Waiting)
      modifies this`at, this`inBucket, bucket, blink
      ensures Linked() && Splitting(names, at, sortPtr, depth) && at.Keys == old(at.Keys)
      ensures (forall x :: x in at ==> !at[x].Waiting?) && Count(inBucket) == old(Count(inBucket)) + |l|
    {
      hide Less, Agree, KeyAt, Code, ListAt, PairStacked, PairSplitting, Splitting, Stacked, Sortable, BucketsOk,
           StackOk, PrintedOk;
      var next := head;
      ghost var rest := l;
      while next != 0
        invariant Linked() && Splitting(names, at, sortPtr, depth)
        invariant ListAt(blink[..], at, next, rest, Waiting) && Count(inBucket) + |rest| == old(Count(inBucket)) + |l|
        invariant at.Keys == old(at.Keys)
        decreases |rest|
      {
        var x := next;
        NotEmpty(blink[..], at, next, rest, Waiting);
        EndNotPassed(names, at, sortPtr, depth, x);
        var c := 0;
        if depth != |names[x]| {
          c := names[x][depth];
          if IsUpper(c) {
            c := c + 32;
          }
        }
        next := blink[x];
        CodeIs(names[x], depth, c);
        BucketLength(blink[..], bucket[..], at, inBucket);
        RestWaits(blink[..], at, x, rest, bucket[c], InBucket(c));
        PutInBucket(x, c, sortPtr, depth);
        rest := rest[1..];
      }
      NoneWaits(blink[..], at, next, rest);
    }

    /** The list on the top of the stack is split by the next character of its names. */
    method SplitTop() returns (ok: bool)
      requires Valid() && sortPtr > 0 && sortInfo[sortPtr].depth < INFINITY
      modifies this`sortPtr, this`at, this`inBucket, this`onStack, bucket, blink, sortInfo
      ensures at.Keys == old(at.Keys) && (ok ==> Valid())
      ensures !ok ==> sortPtr + 1 == sortInfo.Length <= |at.Keys|
      ensures ok ==> Work(Entries(), onStack) < old(Work(Entries(), onStack))
    {
      hide Less, Agree, KeyAt, Code, ListAt, PairStacked, PairSplitting, Splitting, Stacked, Work, Sortable, PrintedOk,
           BucketsOk;
      var depth, head := sortInfo[sortPtr].depth, sortInfo[sortPtr].head;
      ghost var entries, lists, d := Entries(), onStack, Depths(Entries());
      ghost var l := onStack[sortPtr - 1];
      TakeTop(names, blink[..], bucket[..], entries, at, inBucket, onStack, printed, Waiting);
      sortPtr := sortPtr - 1;
      at := MoveAll(at, OnStack(sortPtr), Waiting);
      onStack := onStack[..sortPtr];
      assert Entries() == entries[..sortPtr] && Depths(Entries()) == d[..sortPtr];
      WorkAdd(Entries(), onStack, entries[sortPtr], l);
      assert entries == Entries() + [entries[sortPtr]] && lists == onStack + [l];
      WorkLess(|l|, depth);
      SplitList(head, l, depth);
      ok := Unbucket(depth + 1);
    }

    /** The names from `head` on are printed. */
    method PrintList(head: nat, ghost l: seq<nat>)
      requires blink.Length == |names| && IsList(blink[..], head, l) && l != []
      modifies this`printed
      ensures printed == old(printed) + l
    {
      var x: nat := head;
      ghost var k := 0;
      assert l[0..] == l && old(printed) + l[..0] == old(printed);
      while true
        invariant k < |l| && IsList(blink[..], x, l[k..]) && printed == old(printed) + l[..k]
        decreases |l| - k
      {
        assert l[k..][0] == l[k] && l[k..][1..] == l[k + 1..];
        assert old(printed) + l[..k + 1] == old(printed) + l[..k] + [l[k]];
        printed := printed + [x];
        x := blink[x];
        k := k + 1;
        if x == 0 {
          assert l[..k] == l;
          break;
        }
      }
    }

    /** The list on the top of the stack is printed. */
    method PrintTop()
      requires Valid() && sortPtr > 0 && sortInfo[sortPtr].head < blink.Length
      requires blink[sortInfo[sortPtr].head] == 0 || sortInfo[sortPtr].depth == INFINITY
      modifies this`sortPtr, this`at, this`onStack, this`printed
      ensures Valid() && at.Keys == old(at.Keys)
      ensures Work(Entries(), onStack) < old(Work(Entries(), onStack))
    {
      hide Less, Agree, KeyAt, Code, PairStacked, Stacked, Work, Sortable, ListAt, PrintedOk, BucketsOk, IsList;
      ghost var entries, lists, d, before := Entries(), onStack, Depths(Entries()), printed;
      ghost var l := onStack[sortPtr - 1];
      ListInRange(blink[..], at, sortInfo[sortPtr].head, l, OnStack(sortPtr - 1));
      DepthInRange(names, at, d, sortPtr - 1, l);
      PrintList(sortInfo[sortPtr].head, l);
      TopPrinted(names, blink[..], entries, at, onStack, before);
      TakeTop(names, blink[..], bucket[..], entries, at, inBucket, onStack, before, Printed);
      sortPtr := sortPtr - 1;
      at := MoveAll(at, OnStack(sortPtr), Printed);
      onStack := onStack[..sortPtr];
      assert Entries() == entries[..sortPtr] && Depths(Entries()) == d[..sortPtr];
      WorkAdd(Entries(), onStack, entries[sortPtr], l);
      assert entries == Entries() + [entries[sortPtr]] && lists == onStack + [l];
    }

    /** One round of the main loop: the list at the top of the stack is printed or split. */
    method SortTop() returns (ok: bool)
      requires Valid() && sortPtr > 0
      modifies this`sortPtr, this`at, this`inBucket, this`onStack, this`printed, bucket, blink, sortInfo
      ensures at.Keys == old(at.Keys) && (ok ==> Valid())
      ensures !ok ==> sortPtr + 1 == sortInfo.Length <= |at.Keys|
      ensures ok ==> Work(Entries(), onStack) < old(Work(Entries(), onStack))
    {
      hide Sortable, Splitting, Stacked, Sorted, BucketsOk, Distinct, ListAt, Work;
      var top := sortInfo[sortPtr];
      NotEmpty(blink[..], at, top.head, onStack[sortPtr - 1], OnStack(sortPtr - 1));
      TopDepth(names, at, Depths(Entries()), top.head);
      if blink[top.head] == 0 || top.depth == INFINITY {
        PrintTop();
        ok := true;
      } else {
        ok := SplitTop();
      }
    }

    /** The whole index: every name that is listed once, in order. */
    method SortIndex(order: seq<nat>, crossed: seq<bool>) returns (ok: bool)
      requires bucket != blink && bucket.Length == 256 && blink.Length == |names| && 0 < sortInfo.Length
               && printed == []
      requires |crossed| == |names| && forall i :: 0 <= i < |order| ==>
               0 < order[i] < |names| && Sortable(names[order[i]])
      requires Distinct(order)
      modifies this`sortPtr, this`at, this`inBucket, this`onStack, this`printed, bucket, blink, sortInfo
      ensures ok ==> Distinct(printed) && forall x: nat :: x in printed <==> x in Listed(order, crossed)
      ensures ok ==> Sorted(names, printed)
      ensures !ok ==> sortPtr + 1 == sortInfo.Length
      ensures |Listed(order, crossed)| < sortInfo.Length ==> ok
    {
      hide Sortable, Splitting, Stacked, Sorted, BucketsOk, Distinct, Listed, Work, ListAt, PrintedOk;
      FillBuckets(order, crossed);
      ok := Unbucket(1);
      while ok && sortPtr > 0
        invariant at.Keys == Listed(order, crossed) && (ok ==> Valid())
        invariant !ok ==> sortPtr + 1 == sortInfo.Length <= |at.Keys|
        decreases ok, if ok then Work(Entries(), onStack) else 0
      {
        ok := SortTop();
      }
      if ok {
        PrintedAll();
      }
    }

    lemma PrintedAll()
      requires Valid() && sortPtr == 0
      ensures Distinct(printed) && (forall x: nat :: x in printed <==> x in at.Keys) && Sorted(names, printed)
    {
      hide Sortable, Splitting, Sorted, BucketsOk, Distinct;
      AllPrinted(names, at, Depths(Entries()));
    }
  }

  lemma UnbucketStart(names: seq<Name>, at: Places, depth: seq<nat>, base: nat, d: nat)
    requires Known(names, at) && Stacked(names, at, depth) && Splitting(names, at, base, d) && |depth| == base
    requires forall x :: x in at ==> !at[x].Waiting?
    ensures Unbucketing(names, at, base, d, RANKS - 1)
  {
    hide Less, Agree, Code, Sortable;
    forall x, y | x in at && y in at
      ensures PairUnbucketing(names[x], at[x], names[y], at[y], base, d, RANKS - 1)
    {
      assert PairStacked(names[y], at[y], names[x], at[x], depth);
    }
  }

  lemma EmptyBucket(names: seq<Name>, blink: seq<nat>, bucket: seq<nat>, at: Places, lists: seq<seq<nat>>, base: nat,
                    d: nat, c: nat)
    requires Known(names, at) && Splitting(names, at, base, d) && Unbucketing(names, at, base, d, c) && c < RANKS
    requires BucketsOk(blink, bucket, at, lists) && bucket[Collate(c)] == 0
    ensures Unbucketing(names, at, base, d, c - 1)
  {
    hide Less, Agree, Code, Sortable, KeyAt, Collate, IsList;
    NotEmpty(blink, at, bucket[Collate(c)], lists[Collate(c)], InBucket(Collate(c)));
    forall x, y | x in at && y in at
      ensures PairUnbucketing(names[x], at[x], names[y], at[y], base, d, c - 1)
    {
      assert PairSplitting(names[x], at[x], names[y], at[y], base, d);
      assert PairUnbucketing(names[x], at[x], names[y], at[y], base, d, c);
      BucketRank(names[x], at[x], d, c);
      assert at[x] != InBucket(Collate(c)) by { assert x !in lists[Collate(c)]; }
    }
  }

  lemma AllUnbucketed(names: seq<Name>, at: Places, base: nat, d: nat)
    requires Known(names, at) && Unbucketing(names, at, base, d, -1)
    ensures forall x :: x in at ==> !Moving(at[x])
  {
    forall x | x in at
      ensures !Moving(at[x])
    {
      assert PairUnbucketing(names[x], at[x], names[x], at[x], base, d, -1);
    }
  }

  lemma StackPlaces(names: seq<Name>, at: Places, depth: seq<nat>)
    requires Known(names, at) && Stacked(names, at, depth)
    ensures forall x :: x in at && at[x].OnStack? ==> at[x].i < |depth|
  {
    forall x | x in at && at[x].OnStack?
      ensures at[x].i < |depth|
    {
      assert PairStacked(names[x], at[x], names[x], at[x], depth);
    }
  }

  lemma PrintedMoved(names: seq<Name>, at: Places, p: Place, q: Place, printed: seq<nat>)
    requires Known(names, at) && PrintedOk(names, at, printed) && !p.Printed? && !q.Printed?
    ensures Known(names, MoveAll(at, p, q)) && PrintedOk(names, MoveAll(at, p, q), printed)
  {
    hide Sorted, Sortable;
  }

  lemma Weights(n: nat, all: nat, rest: nat, depth: nat, d: nat)
    requires all == n + rest && 0 < d <= INFINITY && (depth == d || depth == INFINITY)
    ensures n * Left(depth) + rest * Left(d) <= all * Left(d)
  {
    assert n * Left(depth) <= n * Left(d);
    assert all * Left(d) == n * Left(d) + rest * Left(d);
  }

  /** The names of `order` that are to be in the index. */
  function Listed(order: seq<nat>, crossed: seq<bool>): set<nat> {
    set x | x in order && x < |crossed| && crossed[x]
  }

  function FirstCode(n: Name): (c: Byte)
    requires n != []
    ensures c == Code(n, 0)
  {
    Lower(n[0])
  }

  lemma AllWait(names: seq<Name>, at: Places, blink: seq<nat>, bucket: seq<nat>, lists: seq<seq<nat>>)
    requires Known(names, at) && (forall x :: x in at ==> at[x].Waiting?) && |bucket| == 256 == |lists|
    requires forall c :: 0 <= c < 256 ==> bucket[c] == 0 && lists[c] == []
    ensures Stacked(names, at, []) && Splitting(names, at, 0, 0) && BucketsOk(blink, bucket, at, lists)
    ensures PrintedOk(names, at, []) && StackOk(blink, [], at, [])
  {
    hide Sortable, KeyAt, Code;
  }

  lemma PrintedStays(names: seq<Name>, at: Places, x: nat, p: Place, printed: seq<nat>)
    requires Known(names, at) && PrintedOk(names, at, printed) && x in at && !at[x].Printed? && !p.Printed?
    ensures Known(names, at[x := p]) && PrintedOk(names, at[x := p], printed)
  {
    hide Sorted, Sortable;
  }

  /** The list on the top of the stack goes to another place. */
  lemma TakeTop(names: seq<Name>, blink: seq<nat>, bucket: seq<nat>, entries: seq<Entry>, at: Places,
                inBucket: seq<seq<nat>>,
                onStack: seq<seq<nat>>, printed: seq<nat>, q: Place)
    requires Known(names, at) && BucketsOk(blink, bucket, at, inBucket) && StackOk(blink, entries, at, onStack)
    requires Stacked(names, at, Depths(entries)) && PrintedOk(names, at, printed) && entries != []
    requires (forall x :: x in at ==> !Moving(at[x])) && (q.Waiting? || q.Printed?)
    requires q.Waiting? ==> entries[|entries| - 1].depth < INFINITY
    ensures var top := |entries| - 1; var at' := MoveAll(at, OnStack(top), q);
      && Known(names, at') && BucketsOk(blink, bucket, at', inBucket)
        && StackOk(blink, entries[..top], at', onStack[..top])
      && Stacked(names, at', Depths(entries)[..top])
      && (q.Waiting? ==> Splitting(names, at', top, entries[top].depth) && PrintedOk(names, at', printed))
      && (q.Waiting? ==> ListAt(blink, at', entries[top].head, onStack[top], Waiting))
      && (q.Printed? ==> forall x :: x in at' ==> !Moving(at'[x]))
      && Count(inBucket) == 0
  {
    hide Less, Agree, KeyAt, Code, PairStacked, Stacked, Splitting, Sortable, IsList, PrintedOk;
    var top := |entries| - 1;
    OffStack(blink, bucket, entries, at, inBucket, onStack, q);
    if q.Waiting? {
      TakeStep(names, at, Depths(entries), top);
      ListMoved(blink, at, entries[top].head, onStack[top], OnStack(top), Waiting);
      PrintedMoved(names, at, OnStack(top), Waiting, printed);
    } else {
      PrintStep(names, at, Depths(entries), top);
    }
    forall c: Byte
      ensures inBucket[c] == []
    {
      NotEmpty(blink, at, bucket[c], inBucket[c], InBucket(c));
    }
    forall k | 0 <= k < |inBucket|
      ensures inBucket[k] == []
    {
      assert inBucket[k as Byte] == [];
    }
    CountZero(inBucket);
  }

  lemma EndNotPassed(names: seq<Name>, at: Places, base: nat, d: nat, x: nat)
    requires Known(names, at) && Splitting(names, at, base, d) && x in at && Moving(at[x])
    ensures d <= |names[x]|
  {
    assert PairSplitting(names[x], at[x], names[x], at[x], base, d);
    LongEnough(names[x], d);
  }

  lemma BucketLength(blink: seq<nat>, bucket: seq<nat>, at: Places, lists: seq<seq<nat>>)
    requires BucketsOk(blink, bucket, at, lists)
    ensures |bucket| == 256 == |lists|
  {
  }

  lemma CodeIs(n: Name, d: nat, c: Byte)
    requires if d < |n| then c == Lower(n[d]) else c == 0
    ensures c == Code(n, d)
  {
  }

  lemma NoneWaits(blink: seq<nat>, at: Places, head: nat, l: seq<nat>)
    requires ListAt(blink, at, head, l, Waiting) && head == 0
    ensures l == [] && forall x :: x in at ==> !at[x].Waiting?
  {
    NotEmpty(blink, at, head, l, Waiting);
    forall x | x in at
      ensures !at[x].Waiting?
    {
      assert x in l <==> at[x] == Waiting;
    }
  }

  lemma WorkLess(size: nat, depth: nat)
    requires depth < INFINITY
    ensures size * Left(depth + 1) == size * Left(depth) - size
  {
  }

  lemma ListInRange(blink: seq<nat>, at: Places, head: nat, l: seq<nat>, p: Place)
    requires ListAt(blink, at, head, l, p)
    ensures IsList(blink, head, l) && (l != [] ==> l[0] == head) && l[0..] == l
    ensures forall k :: 0 <= k < |l| ==> l[k] in at && at[l[k]] == p
  {
    forall k | 0 <= k < |l|
      ensures l[k] in at && at[l[k]] == p
    {
      assert l[k] in l;
    }
  }

  lemma TopDepth(names: seq<Name>, at: Places, depth: seq<nat>, x: nat)
    requires Known(names, at) && Stacked(names, at, depth) && x in at && at[x].OnStack?
    ensures at[x].i < |depth| && depth[at[x].i] <= INFINITY
  {
    assert PairStacked(names[x], at[x], names[x], at[x], depth);
  }

  lemma DepthInRange(names: seq<Name>, at: Places, depth: seq<nat>, top: nat, l: seq<nat>)
    requires Known(names, at) && Stacked(names, at, depth) && top < |depth| && l != []
    requires l[0] in at && at[l[0]] == OnStack(top)
    ensures |l| * Left(depth[top]) > 0
  {
    hide Stacked, Left;
    TopDepth(names, at, depth, l[0]);
    Positive(|l|, depth[top]);
  }

  lemma Positive(n: nat, depth: nat)
    requires n > 0 && depth <= INFINITY
    ensures n * Left(depth) > 0
  {
  }

  /** A list that is printed comes after what has been printed, and is in order. */
  lemma TopPrinted(names: seq<Name>, blink: seq<nat>, entries: seq<Entry>, at: Places, onStack: seq<seq<nat>>,
                   printed: seq<nat>)
    requires Known(names, at) && StackOk(blink, entries, at, onStack) && Stacked(names, at, Depths(entries))
             && entries != []
    requires PrintedOk(names, at, printed)
    requires var top := |entries| - 1;
      entries[top].head < |blink| && (blink[entries[top].head] == 0 || entries[top].depth == INFINITY)
    ensures var top := |entries| - 1;
      PrintedOk(names, MoveAll(at, OnStack(top), Printed), printed + onStack[top])
  {
    hide Less, Agree, KeyAt, Code, Stacked, Sortable, IsList;
    var top := |entries| - 1;
    var l, all := onStack[top], printed + onStack[top];
    ListInRange(blink, at, entries[top].head, l, OnStack(top));
    ListDistinct(blink, entries[top].head, l);
    NotEmpty(blink, at, entries[top].head, l, OnStack(top));
    forall i, j | 0 <= i < j < |all|
      ensures InOrder(names, all[i], all[j]) && all[i] != all[j]
    {
      var x, y := all[i], all[j];
      if j >= |printed| {
        assert y == l[j - |printed|];
        if i < |printed| {
          assert x in printed;
          PrintedFirst(names, at, Depths(entries), x, y);
        } else {
          assert x == l[i - |printed|];
          TopSame(names, at, Depths(entries), top, x, y);
        }
      }
    }
    forall x: nat
      ensures x in all <==> x in MoveAll(at, OnStack(top), Printed) && MoveAll(at, OnStack(top), Printed)[x].Printed?
    {
      assert x in all <==> x in printed || x in l;
      assert x in l <==> x in at && at[x] == OnStack(top);
    }
  }

  lemma PrintedFirst(names: seq<Name>, at: Places, depth: seq<nat>, x: nat, y: nat)
    requires Known(names, at) && Stacked(names, at, depth) && x in at && y in at && at[x].Printed? && !at[y].Printed?
    ensures Less(names[x], names[y])
  {
    assert PairStacked(names[x], at[x], names[y], at[y], depth);
  }

  lemma TopSame(names: seq<Name>, at: Places, depth: seq<nat>, top: nat, x: nat, y: nat)
    requires Known(names, at) && Stacked(names, at, depth) && top < |depth| && depth[top] == INFINITY
    requires x in at && y in at && at[x] == OnStack(top) && at[y] == OnStack(top)
    ensures SameKey(names[x], names[y])
  {
    assert PairStacked(names[x], at[x], names[y], at[y], depth);
  }

  lemma AllPrinted(names: seq<Name>, at: Places, depth: seq<nat>)
    requires Known(names, at) && Stacked(names, at, depth) && depth == [] && forall x :: x in at ==> !Moving(at[x])
    ensures forall x :: x in at ==> at[x].Printed?
  {
    StackPlaces(names, at, depth);
  }
}

/** What the order of the index means, said without the collating sequence: kinds of characters, and the alphabet. */
module IndexAlphabets {
  import opened Bytes
  import opened IndexKeys
  import opened IndexSorters

  /** The kinds of characters, in the order in which the index has them. */
  datatype Kind = Blank | Control | Punctuation | Underscore | Letter | Digit | High

  function KindOf(c: Byte): Kind {
    if c == 32 then Blank
    else if c < 32 || c == 127 then Control
    else if c == 95 then Underscore
    else if 97 <= c <= 122 || IsUpper(c) then Letter
    else if 48 <= c <= 57 then Digit
    else if c >= 128 then High
    else Punctuation
  }

  function Place(k: Kind): nat {
    match k
    case Blank => 0
    case Control => 1
    case Punctuation => 2
    case Underscore => 3
    case Letter => 4
    case Digit => 5
    case High => 6
  }

  /** The kind decides, and among characters of one kind the code: letters are in alphabetical order, digits in the
      order of their values. */
  predicate Earlier(a: Byte, b: Byte) {
    Place(KindOf(a)) < Place(KindOf(b)) || (KindOf(a) == KindOf(b) && a < b)
  }

  /** The collating sequence has the characters in this order, after the end of a name. */
  lemma CollatedInOrder(a: Byte, b: Byte)
    requires Lower(a) == a && a != 127 && Lower(b) == b && b != 127
    ensures a != 0 ==> Rank(a) > 0
    ensures a != 0 && b != 0 ==> (Rank(a) < Rank(b) <==> Earlier(a, b))
    ensures Rank(a) == Rank(b) <==> a == b
  {
  }

  /** No character with the code 0. */
  predicate Plain(n: Name) {
    Sortable(n) && forall i :: 0 <= i < |n| ==> n[i] != 0
  }

  /** Name `m` comes before `n`: they have the same first `k` characters, up to case, and then `m` ends, or has the
      earlier character. */
  predicate BeforeAt(m: Name, n: Name, k: nat) {
    && k < INFINITY && k <= |m| && k < |n| && (forall i :: 0 <= i < k ==> Lower(m[i]) == Lower(n[i]))
    && (k == |m| || Earlier(Lower(m[k]), Lower(n[k])))
  }

  ghost predicate Alphabetical(m: Name, n: Name) {
    exists k: nat :: BeforeAt(m, n, k)
  }

  lemma KeyMeans(n: Name, d: nat)
    requires Plain(n)
    ensures d < |n| ==> KeyAt(n, d) == Rank(Lower(n[d])) > 0
    ensures d >= |n| ==> KeyAt(n, d) == 0
  {
    PlainKey(n, d);
    if d < |n| {
      CollatedInOrder(Lower(n[d]), Lower(n[d]));
    }
  }

  /** Whether two names have the same character, or both end, at place `i`. */
  predicate SameAt(m: Name, n: Name, i: nat) {
    (i < |m| <==> i < |n|) && (i < |m| && i < |n| ==> Lower(m[i]) == Lower(n[i]))
  }

  lemma SameAtIs(m: Name, n: Name, i: nat)
    requires Plain(m) && Plain(n)
    ensures KeyAt(m, i) == KeyAt(n, i) <==> SameAt(m, n, i)
    ensures KeyAt(m, i) < KeyAt(n, i) <==> i < |n| && (i >= |m| || Earlier(Lower(m[i]), Lower(n[i])))
  {
    hide KeyAt, Rank, Lower, Earlier;
    KeyMeans(m, i);
    KeyMeans(n, i);
    if i < |m| && i < |n| {
      CollatedLower(m[i], n[i]);
    }
  }

  lemma LessAtBefore(m: Name, n: Name, k: nat)
    requires Plain(m) && Plain(n)
    ensures LessAt(m, n, k) <==> BeforeAt(m, n, k)
  {
    hide KeyAt, Lower, Earlier, Sortable;
    SameAtIs(m, n, k);
    forall i: nat | i < k
      ensures KeyAt(m, i) == KeyAt(n, i) <==> SameAt(m, n, i)
    {
      SameAtIs(m, n, i);
    }
    if LessAt(m, n, k) {
      forall i | 0 <= i < k
        ensures i < |m| && i < |n| && Lower(m[i]) == Lower(n[i])
      {
        assert KeyAt(m, i) == KeyAt(n, i) && SameAt(m, n, i);
      }
      assert k > 0 ==> SameAt(m, n, k - 1);
    }
    if BeforeAt(m, n, k) {
      forall i | 0 <= i < k
        ensures KeyAt(m, i) == KeyAt(n, i)
      {
        assert SameAt(m, n, i);
      }
    }
  }

  /** Names that the index does not tell apart have the same first 255 characters, up to case. */
  lemma SameKeyIs(m: Name, n: Name)
    requires Plain(m) && Plain(n)
    ensures SameKey(m, n) <==> forall i :: 0 <= i < INFINITY ==> SameAt(m, n, i)
  {
    hide KeyAt, Sortable, SameAt;
    forall i: nat
      ensures KeyAt(m, i) == KeyAt(n, i) <==> SameAt(m, n, i)
    {
      SameAtIs(m, n, i);
    }
  }

  lemma CollatedLower(a: Byte, b: Byte)
    requires a != 0 && a != 127 && b != 0 && b != 127
    ensures Lower(Lower(a)) == Lower(a) != 127 && Lower(Lower(b)) == Lower(b) != 127
    ensures Rank(Lower(a)) < Rank(Lower(b)) <==> Earlier(Lower(a), Lower(b))
    ensures Rank(Lower(a)) == Rank(Lower(b)) <==> Lower(a) == Lower(b)
  {
    CollatedInOrder(Lower(a), Lower(b));
  }

  /** The order of the index is alphabetical. */
  lemma LessIsAlphabetical(m: Name, n: Name)
    requires Plain(m) && Plain(n)
    ensures Less(m, n) <==> Alphabetical(m, n)
  {
    forall k: nat
      ensures LessAt(m, n, k) <==> BeforeAt(m, n, k)
    {
      LessAtBefore(m, n, k);
    }
  }

  /** What is printed is in alphabetical order: no name comes before one that is printed earlier. */
  lemma PrintedAlphabetically(names: seq<Name>, printed: seq<nat>)
    requires Sorted(names, printed) && forall i :: 0 <= i < |printed| ==>
             printed[i] < |names| && Plain(names[printed[i]])
    ensures forall i, j :: 0 <= i < j < |printed| ==> !Alphabetical(names[printed[j]], names[printed[i]])
  {
    forall i, j | 0 <= i < j < |printed|
      ensures !Alphabetical(names[printed[j]], names[printed[i]])
    {
      assert InOrder(names, printed[i], printed[j]);
      LessIsAlphabetical(names[printed[j]], names[printed[i]]);
    }
  }
}

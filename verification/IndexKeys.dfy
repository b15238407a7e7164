/** The order of the index: names are compared by the places of their characters in the collating sequence, without
    regard to upper and lower case, and only by the first 255 of them. */
module IndexKeys {
  import opened Bytes

  /** `infinity`: also the number of characters that count. */
  const INFINITY: nat := 255

  /** The number of characters in the collating sequence, 0 for the end of a name among them. */
  const RANKS: nat := 229

  /** The array `collate`. */
  function Collate(k: nat): Byte
    requires k < RANKS
  {
    if k == 0 then 0
    else if k == 1 then 32
    else if k <= 32 then (k - 1) as Byte
    else if k <= 47 then k as Byte
    else if k <= 54 then (k + 10) as Byte
    else if k <= 58 then (k + 36) as Byte
    else if k == 59 then 96
    else if k <= 63 then (k + 63) as Byte
    else if k == 64 then 95
    else if k <= 90 then (k + 32) as Byte
    else if k <= 100 then (k - 43) as Byte
    else (k + 27) as Byte
  }

  /** The place of a character in `collate`. */
  function Rank(c: Byte): (k: nat)
    requires Lower(c) == c && c != 127
    ensures k < RANKS && Collate(k) == c
  {
    if c == 0 then 0
    else if c < 32 then c as nat + 1
    else if c == 32 then 1
    else if c <= 47 then c as nat
    else if c <= 57 then c as nat + 43
    else if c <= 64 then c as nat - 10
    else if c <= 94 then c as nat - 36
    else if c == 95 then 64
    else if c == 96 then 59
    else if c <= 122 then c as nat - 32
    else if c <= 126 then c as nat - 63
    else c as nat - 27
  }

  /** No character has two places. */
  lemma CollateInjective(k: nat)
    requires k < RANKS
    ensures Lower(Collate(k)) == Collate(k) && Collate(k) != 127 && Rank(Collate(k)) == k
  {
  }

  /** Exactly the upper case letters, which are folded, and the code 0177 have no place. */
  lemma Uncollated(c: Byte)
    ensures (exists k: nat :: k < RANKS && Collate(k) == c) <==> !IsUpper(c) && c != 127
  {
    if !IsUpper(c) && c != 127 {
      assert Collate(Rank(c)) == c;
    }
    forall k: nat | k < RANKS && Collate(k) == c
      ensures !IsUpper(c) && c != 127
    {
      CollateInjective(k);
    }
  }

  /** The names that the index can hold. */
  predicate Sortable(n: Name) {
    n != [] && forall i :: 0 <= i < |n| ==> n[i] != 127
  }

  /** The code by which a name is put into a bucket at depth `d`. */
  function Code(n: Name, d: nat): (c: Byte)
    ensures Sortable(n) ==> Lower(c) == c && c != 127
  {
    if d < |n| then Lower(n[d]) else 0
  }

  /** The key of a name, character by character; after the end, or a character with code 0, all is 0. */
  function KeyAt(n: Name, d: nat): nat
    requires Sortable(n)
  {
    if d > 0 && KeyAt(n, d - 1) == 0 then 0 else Rank(Code(n, d))
  }

  /** The keys agree on the first `d` characters. */
  predicate Agree(m: Name, n: Name, d: nat)
    requires Sortable(m) && Sortable(n)
  {
    forall k :: 0 <= k < d ==> KeyAt(m, k) == KeyAt(n, k)
  }

  /** The order of keys. */
  predicate LessAt(m: Name, n: Name, k: nat)
    requires Sortable(m) && Sortable(n)
  {
    k < INFINITY && Agree(m, n, k) && KeyAt(m, k) < KeyAt(n, k)
  }

  ghost predicate Less(m: Name, n: Name)
    requires Sortable(m) && Sortable(n)
  {
    exists k: nat :: LessAt(m, n, k)
  }

  ghost predicate SameKey(m: Name, n: Name)
    requires Sortable(m) && Sortable(n)
  {
    Agree(m, n, INFINITY)
  }

  /** The order is total and strict. */
  lemma LessOrSame(m: Name, n: Name)
    requires Sortable(m) && Sortable(n)
    ensures Less(m, n) || Less(n, m) || SameKey(m, n)
    ensures !(Less(m, n) && Less(n, m)) && !(Less(m, n) && SameKey(m, n))
  {
    if k: nat :| k < INFINITY && KeyAt(m, k) != KeyAt(n, k) {
      var j := FirstDifference(m, n, k);
      assert LessAt(m, n, j) || LessAt(n, m, j);
    }
    forall j: nat, k: nat | LessAt(m, n, j)
      ensures !LessAt(n, m, k)
    {
      NotBoth(m, n, j, k);
    }
  }

  lemma NotBoth(m: Name, n: Name, j: nat, k: nat)
    requires Sortable(m) && Sortable(n) && LessAt(m, n, j)
    ensures !LessAt(n, m, k)
  {
    if j < k {
      assert KeyAt(m, j) != KeyAt(n, j);
    }
  }

  lemma {:induction false} FirstDifference(m: Name, n: Name, k: nat) returns (j: nat)
    requires Sortable(m) && Sortable(n) && KeyAt(m, k) != KeyAt(n, k)
    ensures j <= k && Agree(m, n, j) && KeyAt(m, j) != KeyAt(n, j)
  {
    if i: nat :| i < k && KeyAt(m, i) != KeyAt(n, i) {
      j := FirstDifference(m, n, i);
    } else {
      j := k;
    }
  }

  lemma {:induction false} LessTransitive(a: Name, b: Name, c: Name)
    requires Sortable(a) && Sortable(b) && Sortable(c) && Less(a, b) && Less(b, c)
    ensures Less(a, c)
  {
    var j: nat :| LessAt(a, b, j);
    var k: nat :| LessAt(b, c, k);
    assert LessAt(a, c, if j <= k then j else k);
  }

  /** While a key has not ended, it consists of the places of the characters. */
  lemma KeyNow(n: Name, d: nat)
    requires Sortable(n) && (d > 0 ==> KeyAt(n, d - 1) != 0)
    ensures KeyAt(n, d) == Rank(Code(n, d)) && (KeyAt(n, d) == 0 <==> Code(n, d) == 0)
  {
  }

  lemma {:induction false} ZeroStays(n: Name, d: nat, k: nat)
    requires Sortable(n) && d <= k && KeyAt(n, d) == 0
    ensures KeyAt(n, k) == 0
  {
    if d < k {
      ZeroStays(n, d, k - 1);
    }
  }

  /** Two names that end at the same place have the same key. */
  lemma EndedAgree(m: Name, n: Name, d: nat)
    requires Sortable(m) && Sortable(n) && Agree(m, n, d) && KeyAt(m, d) == 0 && KeyAt(n, d) == 0
    ensures SameKey(m, n)
  {
    forall k: nat | k < INFINITY
      ensures KeyAt(m, k) == KeyAt(n, k)
    {
      if k >= d {
        ZeroStays(m, d, k);
        ZeroStays(n, d, k);
      }
    }
  }

  /** A name whose key has not ended is long enough. */
  lemma {:induction false} LongEnough(n: Name, d: nat)
    requires Sortable(n) && (d > 0 ==> KeyAt(n, d - 1) != 0)
    ensures d <= |n|
  {
    if d > 0 {
      KeyPositive(n, d - 1);
      LongEnough(n, d - 1);
    }
  }

  lemma KeyPositive(n: Name, d: nat)
    requires Sortable(n) && KeyAt(n, d) != 0
    ensures d < |n| && (d > 0 ==> KeyAt(n, d - 1) != 0)
  {
  }

  /** For a name without the code 0, the key is what the index is said to be sorted by: the place of each character,
      and 0 after the end. */
  lemma {:induction false} PlainKey(n: Name, d: nat)
    requires Sortable(n) && forall i :: 0 <= i < |n| ==> n[i] != 0
    ensures KeyAt(n, d) == if d < |n| then Rank(Lower(n[d])) else 0
  {
    if d > 0 {
      PlainKey(n, d - 1);
      if d - 1 < |n| {
        assert Lower(n[d - 1]) != 0;
      }
    }
  }
}

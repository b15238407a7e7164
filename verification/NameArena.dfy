/** The name directory of common.c as a value: names and section names in one arena of bytes, the section names also
    in a search tree and, when they are known only in parts, in chains of chunks. */
module NameArenas {
  import opened Bytes
  import opened Sections
  import opened SearchTrees

  /** What an entry of `name_dir` is used for. */
  datatype Role = Other | SectionNode | Dummy | Chunk(section: nat, number: nat)

  /** The arena: entry `i` has the bytes from `starts[i]` to `starts[i + 1]`; the last element of `starts` is that of
      the next free entry. */
  datatype Arena = Arena(mem: seq<Byte>, starts: seq<nat>, link: seq<nat>) {

    predicate Ok() {
      && |starts| >= 1 && |link| == |starts|
      && starts[|starts| - 1] == |mem|
      && (forall i, j :: 0 <= i < j < |starts| ==> starts[i] <= starts[j])
    }

    /** The number of entries, which is the number of the next one. */
    function Entries(): (n: nat)
      requires Ok()
      ensures |link| == |starts| == n + 1
    {
      |starts| - 1
    }

    function Bytes(i: nat): Name
      requires Ok() && i < Entries()
    {
      assert starts[i] <= starts[i + 1] && starts[i + 1] <= |mem| by {
        if i + 1 < |starts| - 1 { assert starts[i + 1] <= starts[|starts| - 1]; }
      }
      mem[starts[i]..starts[i + 1]]
    }
  }

  /** A chunk that ends in a blank is not the last part of its name; the blank does not belong to the name. */
  predicate Marked(c: Name) {
    c != [] && c[|c| - 1] == BLANK
  }

  function Strip(c: Name): Name {
    if Marked(c) then c[..|c| - 1] else c
  }

  function TextOf(cs: seq<Name>): Name {
    if cs == [] then [] else Strip(cs[0]) + TextOf(cs[1..])
  }

  /** All chunks but the last are marked, and no marked chunk adds nothing, except perhaps the first. */
  predicate ChunksOk(cs: seq<Name>) {
    && cs != []
    && (forall i :: 0 <= i < |cs| - 1 ==> Marked(cs[i]))
    && (forall i :: 0 < i < |cs| && Strip(cs[i]) == [] ==> cs[i] == [])
  }

  predicate CompleteOf(cs: seq<Name>)
    requires cs != []
  {
    !Marked(cs[|cs| - 1])
  }

  function Next(chain: seq<nat>, i: nat): nat {
    if i < |chain| then chain[i] else 0
  }

  /** The chunks of section `p` with continuations `chain`. */
  function Chunks(ar: Arena, p: nat, chain: seq<nat>): (cs: seq<Name>)
    requires ar.Ok() && p < ar.Entries() && |ar.Bytes(p)| >= 2
    requires forall i :: 0 <= i < |chain| ==> chain[i] < ar.Entries()
    ensures |cs| == |chain| + 1 && cs[0] == ar.Bytes(p)[2..]
    ensures forall i :: 0 <= i < |chain| ==> cs[i + 1] == ar.Bytes(chain[i])
  {
    [ar.Bytes(p)[2..]] + seq(|chain|, i requires 0 <= i < |chain| => ar.Bytes(chain[i]))
  }

  function PrefixLength(ar: Arena, p: nat): nat
    requires ar.Ok() && p < ar.Entries() && |ar.Bytes(p)| >= 2
  {
    (ar.Bytes(p)[0] as int) * 256 + (ar.Bytes(p)[1] as int)
  }

  /** The representation of a section: the length of its key and its first chunk in entry `p`; if the name is not
      complete, entry `p+1` starts a chain of entries with the other chunks. */
  predicate SectionOk(ar: Arena, roles: seq<Role>, p: nat, chain: seq<nat>)
    requires ar.Ok()
  {
    && |roles| == ar.Entries() && 0 < p < ar.Entries() && roles[p].SectionNode? && |ar.Bytes(p)| >= 2
    && ChainOk(ar, roles, p, chain)
    && ChunksOk(Chunks(ar, p, chain))
    && PrefixLength(ar, p) <= |Strip(ar.Bytes(p)[2..])|
  }

  /** The section that the representation stands for. */
  function SectionAt(ar: Arena, roles: seq<Role>, p: nat, chain: seq<nat>): Section
    requires ar.Ok() && SectionOk(ar, roles, p, chain)
  {
    var cs := Chunks(ar, p, chain);
    Section(ar.Bytes(p)[2..][..PrefixLength(ar, p)], TextOf(cs), CompleteOf(cs))
  }

  // ---------- frames ----------

  predicate Owns(roles: seq<Role>, i: nat, p: nat) {
    i < |roles| && ((roles[i].Dummy? && i == p + 1) || (roles[i].Chunk? && roles[i].section == p))
  }

  /** Section `p` and the entries that belong to it are the same in both arenas. */
  predicate Keeps(ar: Arena, ar': Arena, roles: seq<Role>, roles': seq<Role>, p: nat)
    requires ar.Ok() && ar'.Ok()
  {
    && |roles| == ar.Entries() <= ar'.Entries() == |roles'| && roles <= roles'
    && (forall i: nat :: i < ar.Entries() && (i == p || Owns(roles, i, p)) ==> ar'.Bytes(i) == ar.Bytes(i))
    && (forall i: nat :: i < ar.Entries() && Owns(roles, i, p) ==> ar'.link[i] == ar.link[i])
  }

  /** The entries of `chain` are the chunks of section `p` after the first, each linked to the next. */
  predicate Chained(link: seq<nat>, roles: seq<Role>, p: nat, chain: seq<nat>)
    requires |link| >= |roles|
  {
    && (forall i :: 0 <= i < |chain| ==> 0 < chain[i] < |roles| && roles[chain[i]] == Chunk(p, i))
    && (forall i {:trigger link[chain[i]]} :: 0 <= i < |chain| ==> link[chain[i]] == Next(chain, i + 1))
  }

  /** The part of `SectionOk` that is about links. */
  predicate ChainOk(ar: Arena, roles: seq<Role>, p: nat, chain: seq<nat>)
    requires ar.Ok() && p < ar.Entries() && |ar.Bytes(p)| >= 2
  {
    && |roles| == ar.Entries()
    && Chained(ar.link, roles, p, chain)
    && (if Marked(ar.Bytes(p)[2..]) then
          p + 1 < ar.Entries() && roles[p + 1].Dummy? && ar.link[p + 1] == Next(chain, 0)
        else chain == [])
  }

  lemma ChainFrame(ar: Arena, ar': Arena, roles: seq<Role>, roles': seq<Role>, p: nat, chain: seq<nat>)
    requires ar.Ok() && ar'.Ok() && Keeps(ar, ar', roles, roles', p)
    requires p < ar.Entries() && |ar.Bytes(p)| >= 2 && ChainOk(ar, roles, p, chain)
    ensures ar'.Bytes(p) == ar.Bytes(p) && ChainOk(ar', roles', p, chain)
    ensures Chunks(ar', p, chain) == Chunks(ar, p, chain)
  {
    hide Arena.Bytes, Marked;
    forall i | 0 <= i < |chain|
      ensures 0 < chain[i] < |roles'| && roles'[chain[i]] == Chunk(p, i) && ar'.link[chain[i]] == Next(chain, i + 1)
      ensures ar'.Bytes(chain[i]) == ar.Bytes(chain[i])
    {
      assert Owns(roles, chain[i], p);
    }
    if Marked(ar.Bytes(p)[2..]) {
      assert Owns(roles, p + 1, p);
    }
    var cs, cs' := Chunks(ar, p, chain), Chunks(ar', p, chain);
    forall i | 0 <= i < |cs|
      ensures cs'[i] == cs[i]
    {
      if i > 0 {
        assert cs'[i - 1 + 1] == ar'.Bytes(chain[i - 1]);
      }
    }
  }

  /** A section whose own entries do not change stays as it is. */
  lemma SectionFrame(ar: Arena, ar': Arena, roles: seq<Role>, roles': seq<Role>, p: nat, chain: seq<nat>)
    requires ar.Ok() && ar'.Ok() && Keeps(ar, ar', roles, roles', p) && SectionOk(ar, roles, p, chain)
    ensures SectionOk(ar', roles', p, chain)
    ensures SectionAt(ar', roles', p, chain) == SectionAt(ar, roles, p, chain)
  {
    hide Arena.Bytes, Marked, Strip, TextOf, ChunksOk, ChainOk, Chunks;
    ChainFrame(ar, ar', roles, roles', p, chain);
  }

  lemma ChainInRange(ar: Arena, roles: seq<Role>, p: nat, chain: seq<nat>)
    requires ar.Ok() && SectionOk(ar, roles, p, chain)
    ensures forall i :: 0 <= i < |chain| ==>
            0 < chain[i] < ar.Entries() && chain[i] != p && roles[chain[i]] == Chunk(p, i)
  {
    hide Arena.Bytes, Arena.Ok, ChunksOk, Strip, Marked;
    forall i | 0 <= i < |chain|
      ensures 0 < chain[i] < ar.Entries() && chain[i] != p && roles[chain[i]] == Chunk(p, i)
    {
      assert roles[chain[i]] == Chunk(p, i);
    }
  }

  // ---------- comparing a name with a chunked name ----------

  lemma {:induction false} TextOfAppend(a: seq<Name>, b: seq<Name>)
    ensures TextOf(a + b) == TextOf(a) + TextOf(b)
  {
    if a == [] {
      assert a + b == b;
    } else {
      assert (a + b)[0] == a[0] && (a + b)[1..] == a[1..] + b;
      TextOfAppend(a[1..], b);
    }
  }

  lemma {:induction false} CompareAfter(a: Name, x: Name, y: Name)
    ensures Compare(a + x, a + y) == Compare(x, y)
  {
    if a == [] {
      assert a + x == x && a + y == y;
    } else {
      assert (a + x)[1..] == a[1..] + x && (a + y)[1..] == a[1..] + y;
      CompareAfter(a[1..], x, y);
    }
  }

  lemma {:induction false} CompareBefore(x: Name, y: Name, z: Name)
    requires Compare(x, y).Less? || Compare(x, y).Greater?
    ensures Compare(x, y + z) == Compare(x, y)
  {
    assert (y + z)[0] == y[0] && (y + z)[1..] == y[1..] + z;
    if x[0] == y[0] {
      CompareBefore(x[1..], y[1..], z);
    }
  }

  /** What comparing the rest of a name with one chunk says about the whole name. */
  lemma TextFrom(cs: seq<Name>, i: nat)
    requires i < |cs|
    ensures TextOf(cs[i..]) == Strip(cs[i]) + TextOf(cs[i + 1..])
  {
    assert cs[i..][1..] == cs[i + 1..];
  }

  lemma NoText(cs: seq<Name>)
    ensures TextOf(cs[|cs|..]) == []
  {
  }

  lemma ChunkCompare(n: Name, cs: seq<Name>, key: Name, i: nat, used: nat)
    requires ChunksOk(cs) && i < |cs| && used <= |n| && n[..used] == TextOf(cs[..i])
    ensures var s := Section(key, TextOf(cs), CompleteOf(cs));
      var c := Compare(n[used..], Strip(cs[i]));
      var last := i + 1 == |cs|;
      && (c.Equal? && last ==> NameCompare(n, s) == (if Marked(cs[i]) then Extension else Equal) && s.text == n)
      && (c.Equal? && !last ==> NameCompare(n, s) == if cs[i + 1] == [] then Equal else Prefix)
      && (c.Extension? && last ==>
            && NameCompare(n, s) == (if Marked(cs[i]) then Extension else BadExtension)
            && |s.text| == used + |Strip(cs[i])|)
      && (c.Extension? ==>
            used + |Strip(cs[i])| < |n| && n[..used + |Strip(cs[i])|] == TextOf(cs[..i + 1]))
      && (!c.Equal? && !c.Extension? ==> NameCompare(n, s) == c)
  {
    hide Compare, Strip, TextOf;
    var a, x, t := n[..used], n[used..], Strip(cs[i]);
    var tail := TextOf(cs[i + 1..]);
    TextSplit(cs, i);
    NoText(cs);
    assert n == a + x && TextOf(cs) == a + (t + tail);
    CompareIs(x, t);
    CompareIs(n, TextOf(cs));
    CompareAfter(a, x, t + tail);
    if x == t {
      if i + 1 == |cs| {
        assert t + tail == t;
      } else if cs[i + 1] == [] {
        EmptyIsLast(cs, i + 1);
        assert t + tail == t;
      } else {
        TextSplit(cs, i + 1);
        TextFrom(cs, i + 1);
        assert tail != [] && a + t == n && n < TextOf(cs);
      }
    } else if t < x {
      assert n[..used + |t|] == a + t;
      if i + 1 == |cs| {
        assert t + tail == t && a + t < n;
      }
    } else if x < t {
      assert a + x < a + (t + tail);
    } else {
      CompareBefore(x, t, tail);
    }
  }

  lemma TextOfOne(c: Name)
    ensures TextOf([c]) == Strip(c)
  {
    var one: seq<Name> := [c];
    assert one[1..] == [];
  }

  lemma TextSplit(cs: seq<Name>, i: nat)
    requires i < |cs|
    ensures TextOf(cs) == TextOf(cs[..i]) + (Strip(cs[i]) + TextOf(cs[i + 1..]))
    ensures TextOf(cs[..i + 1]) == TextOf(cs[..i]) + Strip(cs[i])
  {
    hide TextOf, Strip;
    var a, one, z := cs[..i], [cs[i]], cs[i + 1..];
    SplitAt(cs, i);
    TextOfAppend(a, one + z);
    TextOfAppend(one, z);
    TextOfOne(cs[i]);
    TextOfAppend(a, one);
  }

  lemma SplitAt(cs: seq<Name>, i: nat)
    requires i < |cs|
    ensures cs == cs[..i] + ([cs[i]] + cs[i + 1..]) && cs[..i + 1] == cs[..i] + [cs[i]]
  {
  }

  lemma TextGrows(cs: seq<Name>, i: nat)
    requires i < |cs|
    ensures TextOf(cs[..i + 1]) == TextOf(cs[..i]) + Strip(cs[i])
  {
    hide TextOf, Strip;
    TextSplit(cs, i);
  }

  lemma EmptyIsLast(cs: seq<Name>, i: nat)
    requires ChunksOk(cs) && 0 < i < |cs| && cs[i] == []
    ensures i + 1 == |cs| && TextOf(cs[i..]) == []
  {
    var rest: seq<Name> := cs[i..];
    assert rest[1..] == [];
  }
}

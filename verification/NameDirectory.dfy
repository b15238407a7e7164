/** The name directory as the program keeps it: the arrays `byte_mem` and `name_dir`, updated in place. */
module NameDirectories {
  import opened Bytes
  import opened Sections
  import opened SearchTrees
  import opened NameArenas
  import opened NameStates

  /** Section names are cut to this length before they are looked up. */
  const LONGEST_NAME: nat := 1000

  function Append(ar: Arena, b: Name): Arena {
    Arena(ar.mem + b, ar.starts + [|ar.mem| + |b|], ar.link + [0])
  }

  lemma AppendBytes(ar: Arena, b: Name)
    requires ar.Ok()
    ensures var ar' := Append(ar, b);
      && ar'.Ok() && ar'.Entries() == ar.Entries() + 1
      && (forall i: nat :: i < ar.Entries() ==> ar'.Bytes(i) == ar.Bytes(i))
      && ar'.Bytes(ar.Entries()) == b
  {
    var ar' := Append(ar, b);
    forall i: nat | i < ar.Entries()
      ensures ar'.Bytes(i) == ar.Bytes(i)
    {
      assert ar.starts[i] <= ar.starts[i + 1] <= |ar.mem| by { assert ar.Bytes(i) == ar.Bytes(i); }
      assert ar'.mem[ar.starts[i]..ar.starts[i + 1]] == ar.mem[ar.starts[i]..ar.starts[i + 1]];
    }
  }

  /** Links do not matter for the bytes. */
  lemma Relinked(ar: Arena, link: seq<nat>)
    requires ar.Ok() && |link| == |ar.link|
    ensures var ar' := ar.(link := link);
      ar'.Ok() && ar'.Entries() == ar.Entries() && forall i: nat :: i < ar.Entries() ==> ar'.Bytes(i) == ar.Bytes(i)
  {
  }

  /** Overwriting the first two bytes of an entry. */
  lemma Rekeyed(ar: Arena, p: nat, hi: Byte, lo: Byte)
    requires ar.Ok() && p < ar.Entries() && |ar.Bytes(p)| >= 2
    ensures ar.starts[p] + 1 < |ar.mem|
    ensures var ar' := ar.(mem := ar.mem[ar.starts[p] := hi][ar.starts[p] + 1 := lo]);
      && ar'.Ok() && ar'.Bytes(p) == [hi, lo] + ar.Bytes(p)[2..]
      && forall i: nat :: i < ar.Entries() && i != p ==> ar'.Bytes(i) == ar.Bytes(i)
  {
    var a := ar.starts[p];
    var ar' := ar.(mem := ar.mem[a := hi][a + 1 := lo]);
    forall i: nat | i < ar.Entries() && i != p
      ensures ar'.Bytes(i) == ar.Bytes(i)
    {
      assert ar.starts[i] <= ar.starts[i + 1] <= |ar.mem| by { assert ar.Bytes(i) == ar.Bytes(i); }
      assert ar.starts[i + 1] <= a || ar.starts[p + 1] <= ar.starts[i];
    }
  }

  /** Where a chunk lies, and how its mark is found; the first `skip` bytes of the entry are not part of it. */
  lemma ChunkInMemory(ar: Arena, e: nat, skip: nat, c: Name)
    requires ar.Ok() && e < ar.Entries() && skip <= |ar.Bytes(e)| && c == ar.Bytes(e)[skip..]
    requires c == [] && skip > 0 ==> ar.Bytes(e)[skip - 1] != BLANK
    ensures ar.starts[e] + skip <= ar.starts[e + 1] <= |ar.mem| && c == ar.mem[ar.starts[e] + skip..ar.starts[e + 1]]
    ensures Marked(c) <==> ar.starts[e] < ar.starts[e + 1] && ar.mem[ar.starts[e + 1] - 1] == BLANK
    ensures if Marked(c) then
              ar.starts[e] + skip < ar.starts[e + 1] && Strip(c) == ar.mem[ar.starts[e] + skip..ar.starts[e + 1] - 1]
            else Strip(c) == c
  {
    var a, z := ar.starts[e], ar.starts[e + 1];
    assert a <= z <= |ar.mem| by { assert ar.Bytes(e) == ar.Bytes(e); }
    if c != [] {
      assert c[|c| - 1] == ar.mem[z - 1];
    } else if a < z {
      assert ar.Bytes(e)[skip - 1] == ar.mem[z - 1];
    }
  }

  /** The byte before an empty first chunk is not a blank. */
  lemma FirstChunkMark(ar: Arena, roles: seq<Role>, p: nat, chain: seq<nat>)
    requires ar.Ok() && SectionOk(ar, roles, p, chain)
    ensures ar.Bytes(p)[2..] == [] ==> ar.Bytes(p)[1] != BLANK
  {
    hide Arena.Bytes, Arena.Ok, ChainOk, ChunksOk;
  }

  lemma Layout(s: State)
    requires s.Ok()
    ensures s.Stored() && s.ar.Ok()
    ensures |s.ar.starts| == |s.ar.link| == |s.rlink| == |s.roles| + 1 && |s.roles| >= 1
    ensures s.ar.starts[|s.ar.starts| - 1] == |s.ar.mem| && s.ar.Entries() == |s.roles|
    ensures forall p :: p in s.Dir() ==> 0 < p < |s.roles|
    ensures s.Dir().Keys == s.chains.Keys == Ids(s.shape) && Inv(s.Dir())
  {
    hide Arena.Bytes, SectionOk, SectionAt, Inv, Linked, Ordered, Ids;
    ChainsAreEntries(s);
  }

  lemma NextChunk(ar: Arena, roles: seq<Role>, p: nat, chain: seq<nat>, i: nat)
    requires ar.Ok() && SectionOk(ar, roles, p, chain) && i <= |chain|
    requires forall k :: 0 <= k < |chain| ==> chain[k] < ar.Entries()
    ensures var c := Chunks(ar, p, chain)[i];
      && (Marked(c) && i == 0 ==> p + 1 < ar.Entries())
      && (Marked(c) ==>
            ar.link[if i == 0 then p + 1 else chain[i - 1]] == Next(chain, i))
      && (!Marked(c) ==> i == |chain|)
      && (i < |chain| ==> chain[i] > 0)
  {
    hide TextOf, Arena.Bytes, Arena.Ok, Strip;
  }

  /** The memory with a key length at `a`. */
  function WithLength(mem: Name, a: nat, m: nat): Name
    requires a + 1 < |mem| && m < 0x1_0000
  {
    mem[a := (m / 256) as Byte][a + 1 := (m % 256) as Byte]
  }

  function Size(t: Tree): nat {
    match t
    case Nil => 0
    case Node(l, _, r) => Size(l) + 1 + Size(r)
  }

  class NameDirectory {
    var byteMem: seq<Byte>
    /** Where the bytes of each entry start; the last one is for the next free entry, `name_ptr`. */
    var byteStart: seq<nat>
    /** `link`, which for a node of the tree is `llink`; 0 is both `name_dir` and `NULL`. */
    var link: seq<nat>
    var rlink: seq<nat>
    var root: nat
    ghost var shape: Tree
    ghost var roles: seq<Role>
    ghost var chains: map<nat, seq<nat>>

    ghost function Now(): State
      reads this
    {
      State(Arena(byteMem, byteStart, link), rlink, root, shape, roles, chains)
    }

    ghost predicate Valid()
      reads this
    {
      Now().Ok()
    }

    /** The sections that are stored. */
    ghost function Dir(): Directory
      requires Valid()
      reads this
    {
      Now().Dir()
    }

    /** The number of the next entry. */
    ghost function NamePtr(): nat
      requires Valid()
      reads this
    {
      Now().ar.Entries()
    }

    /** `common_init`: only the entry `name_dir`, without any bytes. */
    constructor ()
      ensures Valid() && Dir() == map[]
    {
      byteMem := [];
      byteStart := [0, 0];
      link := [0, 0];
      rlink := [0, 0];
      root := 0;
      shape := Nil;
      roles := [Other];
      chains := map[];
    }

    /** `set_prefix_length`. */
    method SetPrefixLength(p: nat, m: nat)
      requires p < |byteStart| && byteStart[p] + 1 < |byteMem| && m < 0x1_0000
      modifies this`byteMem
      ensures byteMem == WithLength(old(byteMem), byteStart[p], m)
    {
      byteMem := byteMem[byteStart[p] := (m / 256) as Byte];
      byteMem := byteMem[byteStart[p] + 1 := (m % 256) as Byte];
    }

    /** `add_section_name`: a new section below `par`, on the side that `c` tells. */
    method AddSectionName(par: nat, c: Order, n: Name, pref: bool) returns (p: nat)
      requires Valid() && |n| <= LONGEST_NAME && (!pref ==> !Marked(n)) && Matches(Dir(), n) == {}
      requires (par, c) == LastNode(shape, KeysOf(Dir()), n, 0, Less)
      modifies this
      ensures Valid() && p == old(NamePtr()) && Dir() == old(Dir())[p := Section(n, n, !pref)]
    {
      hide State.Dir, State.Stored, Inv, Ordered, Linked, Compare, Matches, Arena.Ok, Arena.Bytes, Added;
      ghost var s := Now();
      Layout(s);
      LastIsNode(s, n);
      p := StoreNewName(n, pref);
      if par == 0 {
        root := p;
      } else if c.Less? {
        link := link[par := p];
      } else {
        rlink := rlink[par := p];
      }
      roles := roles + [SectionNode] + if pref then [Dummy] else [];
      chains := chains[p := []];
      shape := Insert(shape, KeysOf(s.Dir()), n, p);
      AddedLayout(s, Now(), n, pref, par, c);
      AddedOk(s, Now(), n, pref, par, c);
    }

    /** The part of `add_section_name` that fills a new entry, and another one for an abbreviation. */
    method StoreNewName(n: Name, pref: bool) returns (p: nat)
      requires |link| == |rlink| == |byteStart| >= 1 && byteStart[|byteStart| - 1] == |byteMem| && |n| <= LONGEST_NAME
      modifies this`byteMem, this`byteStart, this`link, this`rlink
      ensures p == |old(byteStart)| - 1
      ensures byteMem == old(byteMem) + NewBytes(n, pref)
      ensures byteStart == old(byteStart) + [|byteMem|] + if pref then [|byteMem|] else []
      ensures link == old(link)[p := 0] + [0] + (if pref then [0] else [])
      ensures rlink == old(rlink)[p := 0] + [0] + (if pref then [0] else [])
    {
      p := |byteStart| - 1;
      byteMem := byteMem + [0, 0] + n + if pref then [BLANK] else [];
      byteStart := byteStart + [|byteMem|];
      link := link + [0];
      rlink := rlink + [0];
      if pref {
        byteStart := byteStart + [|byteMem|];
        link := link[p + 1 := 0] + [0];
        rlink := rlink + [0];
      }
      SetPrefixLength(p, |n|);
      link := link[p := 0];
      rlink := rlink[p := 0];
    }

    /** The end of `id_lookup`: a new identifier, linked to the others with its hash code. Sections are not affected. */
    method StoreIdentifier(id: Name, next: nat) returns (p: nat)
      requires Valid()
      modifies this
      ensures Valid() && p == old(NamePtr()) && Dir() == old(Dir())
      ensures NamePtr() == p + 1 && Now().ar.Bytes(p) == id && link[p] == next
    {
      hide State.Dir, State.Stored, Inv, Ordered, Linked, Arena.Ok, Arena.Bytes;
      ghost var s := Now();
      Layout(s);
      p := |byteStart| - 1;
      link := link[p := next] + [0];
      rlink := rlink + [0];
      byteMem := byteMem + id;
      byteStart := byteStart + [|byteMem|];
      roles := roles + [Other];
      IdentifierStored(s, Now(), id, next);
    }

    /** `extend_section_name`: another chunk for the name of `p`. */
    method ExtendSectionName(p: nat, rest: Name, pref: bool)
      requires Valid() && p in Dir() && !Dir()[p].complete
      requires if pref then rest != [] else !Marked(rest)
      modifies this
      ensures Valid()
      ensures Dir() == old(Dir())[p := old(Dir())[p].(text := old(Dir())[p].text + rest, complete := !pref)]
    {
      hide State.Dir, State.Stored, Inv, Ordered, Linked, Arena.Ok, Arena.Bytes, Extended, Strip, Chained;
      ghost var s := Now();
      Layout(s);
      ghost var chain := chains[p];
      LastLink(s, p);
      var q := p + 1;
      ghost var i := 0;
      while link[q] != 0
        invariant i <= |chain| && q == (if i == 0 then p + 1 else chain[i - 1]) && q < |roles|
        invariant link[q] == Next(chain, i)
        decreases |chain| - i
      {
        q := link[q];
        i := i + 1;
      }
      var e := |byteStart| - 1;
      link := link[q := e];
      link := link[e := 0] + [0];
      rlink := rlink + [0];
      byteMem := byteMem + rest + if pref then [BLANK] else [];
      byteStart := byteStart + [|byteMem|];
      roles := roles + [Chunk(p, |chain|)];
      chains := chains[p := chain + [e]];
      ghost var chunk := rest + if pref then [BLANK] else [];
      ExtendedLayout(s, Now(), p, chain, q, chunk);
      StripMark(rest, pref);
      ExtendedOk(s, Now(), p, chunk);
    }

    /** `section_name_cmp`: compare with one chunk after the other. If the name goes on where the section's name ends,
        `used` is where. */
    method SectionNameCmp(n: Name, r: nat) returns (c: Order, used: nat)
      requires Valid() && r in Dir()
      ensures c == NameCompare(n, Dir()[r])
      ensures c.Extension? ==> used <= |n| && n[..used] == Dir()[r].text && !Dir()[r].complete
    {
      hide State.Ok, State.Dir, Strip, ChunksOk, TextOf, Compare, NameCompare, StoredAs, AtChunk, ChunkIs;
      ghost var s, d := Now(), Dir()[r];
      ghost var chain, cs := StoredSection(s, r);
      ghost var i := 0;
      var node: nat, q: nat, start: nat := r, r + 1, byteStart[r] + 2;
      used := 0;
      FirstChunk(s, r, chain);
      while true
        invariant i <= |chain| && AtChunk(s.ar, r, chain, i, node, q, start)
        invariant used <= |n| && n[..used] == TextOf(cs[..i])
        decreases |chain| - i
      {
        ChunkBounds(s, r, chain, cs, i, node, q, start);
        var end := byteStart[node + 1] as int - 1;
        var pref := end >= byteStart[node] && byteMem[end] == BLANK;
        ghost var at := q;
        if pref {
          q := link[q];
        } else {
          end := end + 1;
          q := 0;
        }
        ChunkHere(s, r, chain, cs, i, node, at, start, pref, end, q);
        c := WebStrcmp(n[used..], byteMem[start..end]);
        ChunkStep(n, s.ar, r, chain, cs, d.key, i, used, pref, byteMem[start..end], q, c);
        if q != 0 {
          NextChunkAt(s.ar, r, chain, cs, i, pref, byteMem[start..end], q);
        }
        if c.Equal? {
          if q == 0 {
            if pref {
              used := used + (end - start);
              c := Extension;
            }
            return;
          }
          c := if byteStart[q] == byteStart[q + 1] then Equal else Prefix;
          return;
        } else if c.Extension? {
          if !pref {
            c := BadExtension;
            return;
          }
          used := used + (end - start);
          if q == 0 {
            return;
          }
          start := byteStart[q];
          node := q;
          i := i + 1;
        } else {
          return;
        }
      }
    }

    /** `section_lookup`: find the section that `n` names, or that it abbreviates if `pref`; add it if there is none. An
        error message is given if `ok` is not set. */
    method SectionLookup(n: Name, pref: bool) returns (f: nat, ok: bool)
      requires Valid() && |n| <= LONGEST_NAME && (!pref ==> !Marked(n))
      modifies this
      ensures Valid()
      ensures Found(Dir(), f, ok) == Lookup(old(Dir()), n, pref, old(NamePtr()))
    {
      hide State.Ok, State.Dir, State.Stored, Arena.Ok, Arena.Bytes, Matches, Comparable, Compare, NameCompare, Inv,
           KeysOf, Lookup;
      ghost var d := Dir();
      Layout(Now());
      LookupCases(d, n, pref, NamePtr());
      var r, par, c, clash := FindMatch(n);
      if clash {
        return 0, false;
      }
      if r == 0 {
        f := AddSectionName(par, c, n, pref);
        return f, true;
      }
      f, ok := r, true;
      var cmp, used := SectionNameCmp(n, r);
      assert d == Dir();
      KeyInMemory(Now(), r);
      CompareMeans(n, d[r]);
      match cmp {
        case Prefix =>
          if !pref {
            ok := false;
          } else if |n| < KeyLength(r) {
            ShortenKey(r, n);
          }
        case Equal =>
        case Extension =>
          if !pref || used < |n| {
            assert n == n[..used] + n[used..];
            ExtendSectionName(r, n[used..], pref);
          }
        case BadExtension =>
          ok := false;
        case _ =>
          ok := false;
      }
    }

    /** `prefix_length`. */
    function KeyLength(p: nat): nat
      requires p < |byteStart| && byteStart[p] + 1 < |byteMem|
      reads this
    {
      byteMem[byteStart[p]] as int * 256 + byteMem[byteStart[p] + 1] as int
    }

    /** A shorter key for section `r`. */
    method ShortenKey(r: nat, n: Name)
      requires Valid() && r in Dir() && n <= Dir()[r].key && Matches(Dir(), n) == {r} && |n| <= LONGEST_NAME
      modifies this`byteMem
      ensures Valid() && Dir() == old(Dir())[r := old(Dir())[r].(key := n)]
    {
      hide State.Ok, State.Dir, State.Stored, Arena.Ok, Arena.Bytes, Shortened, Matches, Comparable;
      ghost var s := Now();
      Layout(s);
      KeyInMemory(s, r);
      SetPrefixLength(r, |n|);
      KeyStored(s, Now(), r, |n|);
      ShortenedOk(s, Now(), r, n);
    }

    /** The search in the tree: down to a match, then on in both subtrees of the match for another one. */
    method FindMatch(n: Name) returns (r: nat, par: nat, c: Order, clash: bool)
      requires Valid()
      ensures clash ==> Matches(Dir(), n) != {} && forall x :: Matches(Dir(), n) != {x}
      ensures !clash && r == 0 ==> Matches(Dir(), n) == {} && (par, c) == LastNode(shape, KeysOf(Dir()), n, 0, Less)
      ensures !clash && r != 0 ==> Matches(Dir(), n) == {r}
    {
      hide State.Ok, State.Dir, State.Stored, Arena.Ok, Arena.Bytes, Matches, Compare, Searching;
      ghost var s := Now();
      ghost var tp, tq := shape, Nil;
      SearchStart(s, n);
      var p: nat, q: nat := root, 0;
      r, par, c, clash := 0, 0, Less, false;
      while p != 0
        invariant Searching(s, n, tp, tq, p, q, r, par, c) && (p == 0 ==> q == 0)
        decreases Size(tp) + Size(tq)
      {
        SearchAt(s, n, tp, tq, p, q, r, par, c);
        ghost var t, was := tp, c;
        c := WebStrcmp(n, byteMem[byteStart[p] + 2..byteStart[p] + 2 + KeyLength(p)]);
        if c.Less? || c.Greater? {
          SearchDown(s, n, tp, tq, p, q, r, par, was, c);
          if r == 0 {
            par := p;
          }
          if c.Less? {
            p := link[p];
            tp := t.left;
          } else {
            p := rlink[p];
            tp := t.right;
          }
        } else {
          SearchHit(s, n, tp, tq, p, q, r, par, was, c);
          if r != 0 {
            clash := true;
            return;
          }
          r := p;
          p := link[p];
          q := rlink[r];
          tp, tq := t.left, t.right;
        }
        if p == 0 {
          SearchSwap(s, n, tp, tq, q, r, par, c);
          p, q := q, 0;
          tp, tq := tq, Nil;
        }
      }
      SearchEnd(s, n, tp, tq, r, par, c);
    }

    /** `sprint_section_name`. */
    method SprintSectionName(r: nat) returns (dest: Name)
      requires Valid() && r in Dir()
      ensures dest == Dir()[r].text
    {
      hide State.Ok, State.Dir, Strip, ChunksOk, TextOf, Compare, NameCompare, StoredAs;
      ghost var s := Now();
      ghost var chain, cs := StoredSection(s, r);
      ghost var i := 0;
      var p, q, start := r, r + 1, byteStart[r] + 2;
      dest := [];
      while p != 0
        invariant i <= |cs| && dest == TextOf(cs[..i])
        invariant p == 0 <==> i == |cs|
        invariant p != 0 ==>
                    && p == Element(r, chain, i) < |byteStart|
                    && q == (if i == 0 then r + 1 else p)
                    && start == byteStart[p] + Skipped(i)
        decreases |cs| - i
      {
        ChunkFacts(s, r, chain, cs, i);
        TextGrows(cs, i);
        var end := byteStart[p + 1] as int - 1;
        var from := start;
        assert end >= start && byteMem[end] == BLANK <==> Marked(cs[i]);
        hide Marked;
        if end >= start && byteMem[end] == BLANK {
          p := link[q];
          q := p;
        } else {
          end := end + 1;
          p := 0;
        }
        assert byteMem[from..end] == Strip(cs[i]);
        dest := dest + byteMem[from..end];
        start := byteStart[p];
        i := i + 1;
      }
      assert cs[..i] == cs;
    }
  }

  /** The key of section `p`, and its length, as they lie in memory. */
  predicate KeyAt(ar: Arena, p: nat, key: Name) {
    && p + 1 < |ar.starts| && ar.starts[p] + 2 + |key| <= |ar.mem|
    && |key| == ar.mem[ar.starts[p]] as int * 256 + ar.mem[ar.starts[p] + 1] as int
    && key == ar.mem[ar.starts[p] + 2..ar.starts[p] + 2 + |key|]
  }

  lemma BytesAre(ar: Arena, p: nat)
    requires ar.Ok() && p < ar.Entries()
    ensures p + 1 < |ar.starts| && ar.starts[p] <= ar.starts[p + 1] <= |ar.mem|
    ensures ar.Bytes(p) == ar.mem[ar.starts[p]..ar.starts[p + 1]]
  {
  }

  lemma KeyOfSection(ar: Arena, roles: seq<Role>, p: nat, chain: seq<nat>)
    requires ar.Ok() && SectionOk(ar, roles, p, chain)
    ensures KeyAt(ar, p, SectionAt(ar, roles, p, chain).key)
  {
    hide ChainOk, ChunksOk, TextOf, Chunks, Strip, CompleteOf, Arena.Ok, Arena.Bytes;
    StripIsPrefix(ar.Bytes(p)[2..]);
    BytesAre(ar, p);
    KeySlice(ar.mem, ar.starts[p], ar.starts[p + 1], PrefixLength(ar, p));
  }

  lemma KeySlice(mem: Name, a: nat, z: nat, m: nat)
    requires a + 2 + m <= z <= |mem|
    ensures mem[a..z][0] == mem[a] && mem[a..z][1] == mem[a + 1] && mem[a..z][2..][..m] == mem[a + 2..a + 2 + m]
  {
  }

  lemma KeyInMemory(s: State, p: nat)
    requires s.Ok() && p in s.Dir()
    ensures KeyAt(s.ar, p, s.Dir()[p].key)
  {
    hide Arena.Bytes, Arena.Ok, SectionOk, SectionAt, Inv, Linked, Ordered, KeyAt;
    KeyOfSection(s.ar, s.roles, p, s.chains[p]);
  }

  lemma SectionInBounds(s: State, r: nat)
    requires s.Stored() && r in s.chains
    ensures SectionOk(s.ar, s.roles, r, s.chains[r]) && 0 < r < s.ar.Entries() && |s.ar.Bytes(r)| >= 2
  {
    hide Arena.Bytes, Arena.Ok, ChainOk, ChunksOk, TextOf, Marked, Strip;
  }

  /** Overwriting the length. */
  lemma KeyStored(s: State, t: State, r: nat, m: nat)
    requires s.Ok() && r in s.chains && m < 0x1_0000 && KeyAt(s.ar, r, s.Dir()[r].key)
    requires t == s.(ar := s.ar.(mem := WithLength(s.ar.mem, s.ar.starts[r], m)))
    ensures Shortened(s, t, r, m)
  {
    hide Arena.Bytes, Arena.Ok, SectionOk, SectionAt, Inv, Linked, Ordered, KeyAt;
    SectionInBounds(s, r);
    Rekeyed(s.ar, r, (m / 256) as Byte, (m % 256) as Byte);
  }

  lemma TreeFacts(s: State, n: Name)
    requires s.Ok()
    ensures Linked(s.shape, s.ar.link, s.rlink, s.root) && Ordered(s.shape, KeysOf(s.Dir()))
    ensures Ids(s.shape) == s.Dir().Keys == KeysOf(s.Dir()).Keys && 0 !in s.Dir()
    ensures forall p :: p in s.Dir() ==> KeysOf(s.Dir())[p] == s.Dir()[p].key
    ensures MatchesIn(s.shape, KeysOf(s.Dir()), n) == Matches(s.Dir(), n)
  {
    MatchesAreIn(s.shape, s.Dir(), n);
  }

  /** A state of the search: `tp` and `tq` are the subtrees at `p` and `q` that are still to be searched, and `r` is the
      match that has been found, if any. */
  ghost predicate Searching(s: State, n: Name, tp: Tree, tq: Tree, p: nat, q: nat, r: nat, par: nat, c: Order)
    requires s.Ok()
  {
    var keys := KeysOf(s.Dir());
    && Linked(tp, s.ar.link, s.rlink, p) && Linked(tq, s.ar.link, s.rlink, q)
    && Ordered(tp, keys) && Ordered(tq, keys) && Ids(tp) <= keys.Keys && Ids(tq) <= keys.Keys
    && (if r == 0 then
          && tq.Nil? && MatchesIn(tp, keys, n) == Matches(s.Dir(), n)
          && LastNode(tp, keys, n, par, c) == LastNode(s.shape, keys, n, 0, Less)
        else
          && r in keys && r !in Ids(tp) && r !in Ids(tq)
          && Matches(s.Dir(), n) == {r} + MatchesIn(tp, keys, n) + MatchesIn(tq, keys, n))
  }

  lemma SearchStart(s: State, n: Name)
    requires s.Ok()
    ensures Searching(s, n, s.shape, Nil, s.root, 0, 0, 0, Less) && (s.root == 0 <==> s.shape.Nil?)
  {
    TreeFacts(s, n);
  }

  lemma SearchAt(s: State, n: Name, tp: Tree, tq: Tree, p: nat, q: nat, r: nat, par: nat, c: Order)
    requires s.Ok() && Searching(s, n, tp, tq, p, q, r, par, c) && p != 0
    ensures tp.Node? && p in s.Dir() && KeyAt(s.ar, p, s.Dir()[p].key)
    ensures Size(tp.left) + Size(tp.right) < Size(tp)
  {
    hide State.Dir, State.Stored, Arena.Ok, Arena.Bytes, Matches, MatchesIn, Compare, Ordered, Inv, KeyAt;
    KeyInMemory(s, p);
  }

  /** If the name is not comparable to the key, the search goes on in one subtree. */
  lemma SearchDown(s: State, n: Name, tp: Tree, tq: Tree, p: nat, q: nat, r: nat, par: nat, was: Order, c: Order)
    requires s.Ok() && Searching(s, n, tp, tq, p, q, r, par, was) && tp.Node? && p in s.Dir()
    requires c == Compare(n, s.Dir()[p].key) && (c.Less? || c.Greater?)
    ensures p < |s.ar.link| && p < |s.rlink|
    ensures Searching(s, n, if c.Less? then tp.left else tp.right, tq, if c.Less? then s.ar.link[p] else s.rlink[p], q,
                      r, if r == 0 then p else par, c)
  {
    hide State.Dir, State.Stored, Arena.Ok, Arena.Bytes, Matches, MatchesIn, Compare, AllLess, AllGreater;
    if c.Less? {
      SearchLess(tp, KeysOf(s.Dir()), n);
    } else {
      SearchGreater(tp, KeysOf(s.Dir()), n);
    }
  }

  /** If it is comparable, this is a match: the first one, and then it goes on in both subtrees, or the second one. */
  lemma SearchHit(s: State, n: Name, tp: Tree, tq: Tree, p: nat, q: nat, r: nat, par: nat, was: Order, c: Order)
    requires s.Ok() && Searching(s, n, tp, tq, p, q, r, par, was) && tp.Node? && p in s.Dir()
    requires c == Compare(n, s.Dir()[p].key) && !c.Less? && !c.Greater?
    ensures p < |s.ar.link| && p < |s.rlink|
    ensures r == 0 ==> Searching(s, n, tp.left, tp.right, s.ar.link[p], s.rlink[p], p, par, c)
    ensures r != 0 ==> Matches(s.Dir(), n) != {} && forall x :: Matches(s.Dir(), n) != {x}
  {
    hide State.Dir, State.Stored, Arena.Ok, Arena.Bytes, Matches, MatchesIn, Compare, AllLess, AllGreater, Comparable;
    CompareIs(n, s.Dir()[p].key);
    SearchMatch(tp, KeysOf(s.Dir()), n);
    if r != 0 {
      assert p in Matches(s.Dir(), n) && r in Matches(s.Dir(), n) && p != r;
    }
  }

  lemma SearchSwap(s: State, n: Name, tp: Tree, tq: Tree, q: nat, r: nat, par: nat, c: Order)
    requires s.Ok() && Searching(s, n, tp, tq, 0, q, r, par, c)
    ensures Searching(s, n, tq, Nil, q, 0, r, par, c) && tp.Nil? && (q != 0 <==> tq.Node?)
  {
    hide State.Ok, State.Dir, State.Stored, Arena.Ok, Arena.Bytes, Matches;
  }

  lemma SearchEnd(s: State, n: Name, tp: Tree, tq: Tree, r: nat, par: nat, c: Order)
    requires s.Ok() && Searching(s, n, tp, tq, 0, 0, r, par, c)
    ensures r == 0 ==> Matches(s.Dir(), n) == {} && (par, c) == LastNode(s.shape, KeysOf(s.Dir()), n, 0, Less)
    ensures r != 0 ==> Matches(s.Dir(), n) == {r}
  {
    hide State.Ok, State.Dir, State.Stored, Arena.Ok, Arena.Bytes, Matches;
  }

  /** What `SectionLookup` needs to know about a comparison. */
  lemma CompareMeans(n: Name, s: Section)
    requires Comparable(n, s.key) && s.key <= s.text
    ensures NameCompare(n, s).Prefix? && |n| < |s.key| ==> n <= s.key
    ensures NameCompare(n, s).Extension? && |n| == |s.text| ==> n == s.text
  {
    CompareIs(n, s.text);
  }

  /** The lookup by the number of sections that match. */
  lemma LookupCases(d: Directory, n: Name, pref: bool, number: nat)
    requires Inv(d)
    ensures Matches(d, n) == {} ==> Lookup(d, n, pref, number) == Found(d[number := Section(n, n, !pref)], number, true)
    ensures forall r :: Matches(d, n) == {r} ==>
              && r in d && Lookup(d, n, pref, number) == Resolve(d, n, pref, r)
              && Comparable(n, d[r].key) && d[r].key <= d[r].text
    ensures Matches(d, n) != {} && (forall x :: Matches(d, n) != {x}) ==>
            Lookup(d, n, pref, number) == Found(d, 0, false)
  {
    forall r | Matches(d, n) == {r}
      ensures r in d && Lookup(d, n, pref, number) == Resolve(d, n, pref, r)
      ensures Comparable(n, d[r].key) && d[r].key <= d[r].text
    {
      assert r in Matches(d, n);
    }
  }

  lemma IdentifierStored(s: State, t: State, id: Name, next: nat)
    requires s.Ok()
    requires t.ar.mem == s.ar.mem + id && t.ar.starts == s.ar.starts + [|t.ar.mem|]
    requires |s.roles| < |s.ar.link| && t.ar.link == s.ar.link[|s.roles| := next] + [0] && t.rlink == s.rlink + [0]
    requires t.roles == s.roles + [Other] && t.chains == s.chains && t.root == s.root && t.shape == s.shape
    ensures t.Ok() && t.Dir() == s.Dir() && t.ar.Bytes(|s.roles|) == id
  {
    hide Arena.Bytes, Arena.Ok, SectionOk, SectionAt, Inv, Ordered, Linked, KeysOf;
    Layout(s);
    AppendBytes(s.ar, id);
    Relinked(Append(s.ar, id), t.ar.link);
    assert t.ar == Append(s.ar, id).(link := t.ar.link);
    forall p | p in s.chains
      ensures Keeps(s.ar, t.ar, s.roles, t.roles, p)
    {
    }
    hide Keeps;
    OthersKept(s, t, 0);
    assert 0 !in s.chains && t.Stored();
    assert t.Dir() == s.Dir();
    LinkedFrame(s.shape, s.ar.link, s.rlink, t.ar.link, t.rlink, s.root);
  }

  lemma StripMark(rest: Name, pref: bool)
    requires if pref then rest != [] else !Marked(rest)
    ensures var c := rest + if pref then [BLANK] else [];
      Strip(c) == rest && (Marked(c) <==> pref) && (Strip(c) == [] ==> c == [])
  {
  }

  /** The entry with chunk number `i`. */
  function Element(r: nat, chain: seq<nat>, i: nat): nat
    requires i <= |chain|
  {
    if i == 0 then r else chain[i - 1]
  }

  /** The number of its bytes that do not belong to the chunk. */
  function Skipped(i: nat): nat {
    if i == 0 then 2 else 0
  }

  /** Section `r` is stored as the chunks `cs`. */
  ghost predicate StoredAs(s: State, r: nat, chain: seq<nat>, cs: seq<Name>) {
    && s.Ok() && r in s.chains && chain == s.chains[r]
    && (forall k :: 0 <= k < |chain| ==> 0 < chain[k] < s.ar.Entries())
    && SectionOk(s.ar, s.roles, r, chain)
    && cs == Chunks(s.ar, r, chain)
  }

  /** A stored section as chunks. */
  lemma StoredSection(s: State, r: nat) returns (chain: seq<nat>, cs: seq<Name>)
    requires s.Ok() && r in s.Dir()
    ensures StoredAs(s, r, chain, cs)
    ensures ChunksOk(cs) && |cs| == |chain| + 1
    ensures s.Dir()[r] == Section(s.Dir()[r].key, TextOf(cs), CompleteOf(cs))
    ensures TextOf(cs[..0]) == []
    ensures Element(r, chain, 0) == r && Skipped(0) == 2 && 0 < r < |s.roles| < |s.ar.starts|
  {
    hide Arena.Bytes, Arena.Ok, Chained, ChunksOk, Strip, Marked, Inv, Linked, Ordered;
    chain := s.chains[r];
    ChainInRange(s.ar, s.roles, r, chain);
    cs := Chunks(s.ar, r, chain);
    Layout(s);
  }

  /** Chunk `c` is entry `e` without its first `skip` bytes, and whether it is marked can be seen from the last byte. */
  predicate InMemory(ar: Arena, e: nat, skip: nat, c: Name) {
    && 0 < e && e + 1 < |ar.starts| == |ar.link|
    && ar.starts[e] + skip <= ar.starts[e + 1] <= |ar.mem|
    && c == ar.mem[ar.starts[e] + skip..ar.starts[e + 1]]
    && (Marked(c) <==> ar.starts[e] < ar.starts[e + 1] && ar.mem[ar.starts[e + 1] - 1] == BLANK)
    && (if Marked(c) then
          ar.starts[e] + skip < ar.starts[e + 1] && Strip(c) == ar.mem[ar.starts[e] + skip..ar.starts[e + 1] - 1]
        else Strip(c) == c)
  }

  /** The link that leads from chunk number `i` to the next one. */
  predicate LinkFrom(ar: Arena, r: nat, chain: seq<nat>, i: nat, marked: bool)
    requires i <= |chain|
  {
    && (marked ==>
          var q := if i == 0 then r + 1 else Element(r, chain, i);
          q < |ar.link| && ar.link[q] == Next(chain, i))
    && (!marked ==> i == |chain|)
    && (if i < |chain| then 0 < Next(chain, i) == Element(r, chain, i + 1) < |ar.starts| else Next(chain, i) == 0)
  }

  /** Where the comparison is in the arena when it comes to chunk number `i`. */
  predicate AtChunk(ar: Arena, r: nat, chain: seq<nat>, i: nat, node: nat, q: nat, start: nat)
    requires i <= |chain|
  {
    && node == Element(r, chain, i) < |ar.starts|
    && q == (if i == 0 then r + 1 else node)
    && start == ar.starts[node] + Skipped(i)
  }

  lemma FirstChunk(s: State, r: nat, chain: seq<nat>)
    requires r < |s.ar.starts|
    ensures AtChunk(s.ar, r, chain, 0, r, r + 1, s.ar.starts[r] + 2)
  {
  }

  lemma ChunkBounds(s: State, r: nat, chain: seq<nat>, cs: seq<Name>, i: nat, node: nat, q: nat, start: nat)
    requires StoredAs(s, r, chain, cs) && i <= |chain| && |cs| == |chain| + 1
             && AtChunk(s.ar, r, chain, i, node, q, start)
    ensures 0 < node && node + 1 < |s.ar.starts| && s.ar.starts[node] <= start <= s.ar.starts[node + 1] <= |s.ar.mem|
    ensures s.ar.starts[node] < s.ar.starts[node + 1] && s.ar.mem[s.ar.starts[node + 1] - 1] == BLANK ==>
              q < |s.ar.link| && start < s.ar.starts[node + 1]
  {
    hide StoredAs;
    ChunkFacts(s, r, chain, cs, i);
  }

  /** The chunk that the comparison has come to, and the entry `next` that follows it in the chain, 0 if it is the
      last. */
  predicate ChunkIs(ar: Arena, r: nat, chain: seq<nat>, cs: seq<Name>, i: nat, marked: bool, chunk: Name, next: nat)
    requires i <= |chain| && |cs| == |chain| + 1
  {
    && Marked(cs[i]) == marked && Strip(cs[i]) == chunk && next == Next(chain, i) && (!marked ==> next == 0)
    && (if i == |chain| then next == 0
        else
          && 0 < next && next + 1 < |ar.starts| && (cs[i + 1] == [] <==> ar.starts[next] == ar.starts[next + 1])
          && AtChunk(ar, r, chain, i + 1, next, next, ar.starts[next]))
  }

  lemma ChunkHere(s: State, r: nat, chain: seq<nat>, cs: seq<Name>, i: nat, node: nat, q: nat, start: nat, marked: bool,
                  end: nat, next: nat)
    requires StoredAs(s, r, chain, cs) && i <= |chain| && |cs| == |chain| + 1
    requires AtChunk(s.ar, r, chain, i, node, q, start) && node + 1 < |s.ar.starts|
    requires s.ar.starts[node] <= start <= s.ar.starts[node + 1] <= |s.ar.mem|
    requires marked == (s.ar.starts[node] < s.ar.starts[node + 1] && s.ar.mem[s.ar.starts[node + 1] - 1] == BLANK)
    requires end == s.ar.starts[node + 1] - (if marked then 1 else 0) && start <= end
    requires if marked then q < |s.ar.link| && next == s.ar.link[q] else next == 0
    ensures ChunkIs(s.ar, r, chain, cs, i, marked, s.ar.mem[start..end], next)
  {
    hide StoredAs, Marked, Strip;
    ChunkFacts(s, r, chain, cs, i);
    if i < |chain| {
      ChunkFacts(s, r, chain, cs, i + 1);
    }
  }

  /** What the comparison with one chunk means. */
  lemma ChunkStep(n: Name, ar: Arena, r: nat, chain: seq<nat>, cs: seq<Name>, key: Name, i: nat, used: nat,
                  marked: bool,
                  chunk: Name, next: nat, c: Order)
    requires i <= |chain| && |cs| == |chain| + 1 && ChunksOk(cs) && ChunkIs(ar, r, chain, cs, i, marked, chunk, next)
    requires used <= |n| && n[..used] == TextOf(cs[..i]) && c == Compare(n[used..], chunk)
    ensures var d := Section(key, TextOf(cs), CompleteOf(cs));
      && (c.Equal? && next == 0 && !marked ==> NameCompare(n, d) == Equal)
      && (c.Equal? && next == 0 && marked ==>
            NameCompare(n, d) == Extension && used + |chunk| == |n| && n == d.text && !d.complete)
      && (c.Equal? && next != 0 ==>
            NameCompare(n, d) == if next + 1 < |ar.starts| && ar.starts[next] == ar.starts[next + 1] then Equal
              else Prefix)
      && (c.Extension? && !marked ==> NameCompare(n, d) == BadExtension)
      && (c.Extension? && marked ==> used + |chunk| <= |n|)
      && (c.Extension? && marked && next == 0 ==>
            NameCompare(n, d) == Extension && n[..used + |chunk|] == d.text && !d.complete)
      && (c.Extension? && marked && next != 0 ==> n[..used + |chunk|] == TextOf(cs[..i + 1]))
      && (!c.Equal? && !c.Extension? ==> NameCompare(n, d) == c)
  {
    hide Strip, Compare, NameCompare, TextOf, ChunksOk, Marked;
    ChunkCompare(n, cs, key, i, used);
    CompareIs(n[used..], chunk);
    assert i == |chain| ==> cs[..i + 1] == cs;
  }

  lemma NextChunkAt(ar: Arena, r: nat, chain: seq<nat>, cs: seq<Name>, i: nat, marked: bool, chunk: Name, next: nat)
    requires i <= |chain| && |cs| == |chain| + 1 && ChunkIs(ar, r, chain, cs, i, marked, chunk, next) && next != 0
    ensures i < |chain| && next + 1 < |ar.starts| && AtChunk(ar, r, chain, i + 1, next, next, ar.starts[next])
  {
  }

  /** Chunk number `i` in memory, and the link to the next one. */
  lemma ChunkFacts(s: State, r: nat, chain: seq<nat>, cs: seq<Name>, i: nat)
    requires StoredAs(s, r, chain, cs) && i <= |chain| && |cs| == |chain| + 1
    ensures InMemory(s.ar, Element(r, chain, i), Skipped(i), cs[i])
    ensures LinkFrom(s.ar, r, chain, i, Marked(cs[i]))
  {
    hide State.Ok, State.Stored, SectionOk, Arena.Bytes, Arena.Ok, Chained, ChainOk, ChunksOk, TextOf, Marked, Strip;
    StoredInBounds(s, r, chain, cs);
    FirstChunkMark(s.ar, s.roles, r, chain);
    NextChunk(s.ar, s.roles, r, chain, i);
    ChunkInMemory(s.ar, Element(r, chain, i), Skipped(i), cs[i]);
  }

  lemma StoredInBounds(s: State, r: nat, chain: seq<nat>, cs: seq<Name>)
    requires StoredAs(s, r, chain, cs)
    ensures s.ar.Ok() && 0 < r < s.ar.Entries() && |s.ar.Bytes(r)| >= 2
  {
    hide Arena.Bytes, Arena.Ok, Chained, ChainOk, ChunksOk, TextOf, Marked, Strip;
  }

  /** The links that `extend_section_name` follows. */
  lemma LastLink(s: State, p: nat)
    requires s.Ok() && p in s.Dir() && !s.Dir()[p].complete
    ensures var chain := s.chains[p];
      && s.ar.link[p + 1] == Next(chain, 0) && p + 1 < |s.roles|
      && forall i :: 0 <= i < |chain| ==> 0 < chain[i] < |s.roles| && s.ar.link[chain[i]] == Next(chain, i + 1)
  {
    hide Arena.Bytes, Arena.Ok, ChunksOk, TextOf, Strip, Marked, Inv, Linked, Ordered, SectionAt;
    FirstMarked(s, p);
  }

  /** `t` is `s` with another entry, which `last` is linked to. */
  ghost predicate LaidOut(s: State, t: State, r: nat, chain: seq<nat>, last: nat, chunk: Name) {
    var e := |s.roles|;
    && last < e < |s.ar.link|
    && t.ar.mem == s.ar.mem + chunk && t.ar.starts == s.ar.starts + [|t.ar.mem|]
    && t.ar.link == s.ar.link[last := e][e := 0] + [0] && t.rlink == s.rlink + [0]
    && t.roles == s.roles + [Chunk(r, |chain|)] && t.chains == s.chains[r := chain + [e]]
    && t.root == s.root && t.shape == s.shape
  }

  lemma ExtendedLayout(s: State, t: State, r: nat, chain: seq<nat>, last: nat, chunk: Name)
    requires s.Ok() && r in s.chains && chain == s.chains[r]
    requires last == if chain == [] then r + 1 else chain[|chain| - 1]
    requires LaidOut(s, t, r, chain, last, chunk)
    ensures Extended(s, t, r, chunk)
  {
    hide Arena.Bytes, Arena.Ok, SectionOk, SectionAt, Linked, Ordered, Inv;
    Layout(s);
    AppendBytes(s.ar, chunk);
    var ar1 := Append(s.ar, chunk);
    Relinked(ar1, t.ar.link);
    assert t.ar == ar1.(link := t.ar.link);
  }

  /** `t` is `s` with a new node, which `par` is linked to. */
  ghost predicate NodeLaidOut(s: State, t: State, n: Name, pref: bool, par: nat, left: bool, shape: Tree) {
    var p := |s.roles|;
    && p < |s.ar.link| && p < |s.rlink| && par < p && |n| < 0x1_0000
    && t.ar.mem == s.ar.mem + NewBytes(n, pref)
    && t.ar.starts == s.ar.starts + [|t.ar.mem|] + (if pref then [|t.ar.mem|] else [])
    && t.ar.link == LinksWith(s.ar.link, p, par, left, pref) && t.rlink == LinksWith(s.rlink, p, par, !left, pref)
    && t.root == (if par == 0 then p else s.root)
    && t.roles == s.roles + [SectionNode] + (if pref then [Dummy] else [])
    && t.chains == s.chains[p := []]
    && t.shape == shape
  }

  /** The links of the nodes with those of a new node `p`, which has become a child of `par` if `here`. */
  function LinksWith(l: seq<nat>, p: nat, par: nat, here: bool, pref: bool): seq<nat>
    requires par < p < |l|
  {
    var m := l[p := 0] + [0] + if pref then [0] else [];
    if par != 0 && here then m[par := p] else m
  }

  lemma LinksAre(l: seq<nat>, p: nat, par: nat, here: bool, pref: bool)
    requires par < p && |l| == p + 1
    ensures var m := LinksWith(l, p, par, here, pref);
      && |m| == p + 2 + (if pref then 1 else 0) && m[p] == 0 && (pref ==> m[p + 1] == 0)
      && forall i: nat :: i < p ==> m[i] == if i == par && i != 0 && here then p else l[i]
  {
  }

  lemma LayoutLengths(s: State)
    requires s.Ok()
    ensures s.ar.Ok() && |s.ar.starts| == |s.ar.link| == |s.rlink| == |s.roles| + 1 && s.ar.Entries() == |s.roles|
  {
    hide State.Ok, State.Stored, State.Dir, Arena.Bytes, Arena.Ok;
    Layout(s);
  }

  lemma AddedLayout(s: State, t: State, n: Name, pref: bool, par: nat, c: Order)
    requires s.Ok()
    requires (par == 0 <==> s.shape.Nil?) && (par != 0 ==> par in s.Dir())
    requires NodeLaidOut(s, t, n, pref, par, c.Less?, Insert(s.shape, KeysOf(s.Dir()), n, |s.roles|))
    ensures Added(s, t, n, pref, par, c)
  {
    hide State.Ok, State.Stored, State.Dir, Arena.Bytes, Arena.Ok, NewBytes, Insert, KeysOf, LinksWith;
    LayoutLengths(s);
    LinksAre(s.ar.link, |s.roles|, par, c.Less?, pref);
    LinksAre(s.rlink, |s.roles|, par, !c.Less?, pref);
    NewBytesStored(s.ar, t.ar, n, pref);
  }

  lemma LastIsNode(s: State, n: Name)
    requires s.Ok()
    ensures var last := LastNode(s.shape, KeysOf(s.Dir()), n, 0, Less).0;
      (last == 0 <==> s.shape.Nil?) && (last != 0 ==> last in s.Dir())
  {
    hide Arena.Ok, Compare, Linked, Ordered, Inv, SectionOk, SectionAt;
    if s.shape.Node? {
      LastNodeIn(s.shape, KeysOf(s.Dir()), n, 0, Less);
      ChainsAreEntries(s);
    }
  }

  lemma NewBytesStored(ar: Arena, ar': Arena, n: Name, pref: bool)
    requires ar.Ok() && |n| < 0x1_0000
    requires ar'.mem == ar.mem + NewBytes(n, pref)
    requires ar'.starts == ar.starts + [|ar'.mem|] + if pref then [|ar'.mem|] else []
    requires |ar'.link| == |ar'.starts|
    ensures ar'.Ok() && ar'.Entries() == ar.Entries() + (if pref then 2 else 1)
    ensures ar'.Bytes(ar.Entries()) == NewBytes(n, pref)
    ensures forall i: nat :: i < ar.Entries() ==> ar'.Bytes(i) == ar.Bytes(i)
  {
    hide Arena.Bytes, Arena.Ok;
    AppendBytes(ar, NewBytes(n, pref));
    var ar1 := Append(ar, NewBytes(n, pref));
    assert ar1.mem == ar'.mem;
    var ar2 := if pref then Append(ar1, []) else ar1;
    if pref {
      AppendBytes(ar1, []);
    }
    assert ar2.mem == ar'.mem && ar2.starts == ar'.starts;
    Relinked(ar2, ar'.link);
    assert ar' == ar2.(link := ar'.link);
  }
}

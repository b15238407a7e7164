/** The whole name directory as a value, and the three ways in which a lookup changes it. */
module NameStates {
  import opened Bytes
  import opened Sections
  import opened SearchTrees
  import opened NameArenas

  datatype State = State(ar: Arena, rlink: seq<nat>, root: nat, shape: Tree, roles: seq<Role>,
                         chains: map<nat, seq<nat>>) {

    ghost predicate Stored() {
      && ar.Ok() && |rlink| == |ar.starts|
      && 1 <= |roles| == ar.Entries() && roles[0].Other?
      && forall p :: p in chains ==> SectionOk(ar, roles, p, chains[p])
    }

    /** The sections that are stored. */
    ghost function Dir(): Directory
      requires Stored()
    {
      map p | p in chains :: SectionAt(ar, roles, p, chains[p])
    }

    /** The sections are the nodes of a search tree, and no key begins with another. */
    ghost predicate Ok() {
      && Stored() && Inv(Dir())
      && Ids(shape) == chains.Keys
      && Linked(shape, ar.link, rlink, root)
      && Ordered(shape, KeysOf(Dir()))
    }
  }

  function KeysOf(d: Directory): Keys {
    map p | p in d :: d[p].key
  }

  lemma KeysUpdate(d: Directory, r: nat, s: Section)
    ensures KeysOf(d[r := s]) == KeysOf(d)[r := s.key]
  {
  }

  lemma MatchesAreIn(t: Tree, d: Directory, n: Name)
    requires Ids(t) == d.Keys
    ensures MatchesIn(t, KeysOf(d), n) == Matches(d, n)
  {
  }

  /** Everything but section `r` stays as it is. */
  lemma OthersKept(s: State, s': State, r: nat)
    requires s.Stored() && s'.ar.Ok()
    requires forall p :: p in s.chains && p != r ==>
             p in s'.chains && s'.chains[p] == s.chains[p] && Keeps(s.ar, s'.ar, s.roles, s'.roles, p)
    ensures forall p :: p in s.chains && p != r ==>
              SectionOk(s'.ar, s'.roles, p, s'.chains[p])
              && SectionAt(s'.ar, s'.roles, p, s'.chains[p]) == SectionAt(s.ar, s.roles, p, s.chains[p])
  {
    hide Keeps, SectionOk, SectionAt, Arena.Ok;
    forall p | p in s.chains && p != r
      ensures SectionOk(s'.ar, s'.roles, p, s'.chains[p])
           && SectionAt(s'.ar, s'.roles, p, s'.chains[p]) == SectionAt(s.ar, s.roles, p, s.chains[p])
    {
      SectionFrame(s.ar, s'.ar, s.roles, s'.roles, p, s.chains[p]);
    }
  }

  // ---------- a new section ----------

  /** The bytes of a new section: the length of its key, its name, and a blank if the name is an abbreviation. */
  function NewBytes(n: Name, pref: bool): Name
    requires |n| < 0x1_0000
  {
    [(|n| / 256) as Byte, (|n| % 256) as Byte] + n + if pref then [BLANK] else []
  }

  lemma NewSection(ar: Arena, roles: seq<Role>, p: nat, n: Name, pref: bool)
    requires ar.Ok() && |roles| == ar.Entries() && |n| < 0x1_0000 && (!pref ==> !Marked(n))
    requires 0 < p < ar.Entries() && roles[p].SectionNode? && ar.Bytes(p) == NewBytes(n, pref)
    requires pref ==> p + 1 < ar.Entries() && roles[p + 1].Dummy? && ar.link[p + 1] == 0
    ensures SectionOk(ar, roles, p, []) && SectionAt(ar, roles, p, []) == Section(n, n, !pref)
  {
    hide Arena.Bytes, Arena.Ok;
    var c := ar.Bytes(p)[2..];
    assert c == n + if pref then [BLANK] else [];
    assert Strip(c) == n;
    assert PrefixLength(ar, p) == |n|;
    var cs := Chunks(ar, p, []);
    assert cs == [c] && cs[1..] == [];
    assert TextOf(cs) == n;
    assert c[..|n|] == n;
  }

  /** `s'` is `s` with a new section `p` below the last node that the search for `n` passed. */
  ghost predicate Added(s: State, s': State, n: Name, pref: bool, par: nat, c: Order)
    requires s.Ok()
  {
    var p := s.ar.Entries();
    && s'.ar.Ok() && s'.ar.Entries() == p + (if pref then 2 else 1)
    && s'.roles == s.roles + [SectionNode] + (if pref then [Dummy] else [])
    && (forall i: nat :: i < p ==> s'.ar.Bytes(i) == s.ar.Bytes(i))
    && |n| < 0x1_0000 && s'.ar.Bytes(p) == NewBytes(n, pref)
    && |s'.rlink| == |s'.ar.starts|
    && (forall i: nat :: i < p ==> s'.ar.link[i] == if i == par && i != 0 && c.Less? then p else s.ar.link[i])
    && (forall i: nat :: i < p ==> s'.rlink[i] == if i == par && i != 0 && !c.Less? then p else s.rlink[i])
    && s'.ar.link[p] == 0 && s'.rlink[p] == 0 && (pref ==> s'.ar.link[p + 1] == 0)
    && s'.root == (if s.shape.Nil? then p else s.root)
    && s'.chains == s.chains[p := []]
    && s'.shape == Insert(s.shape, KeysOf(s.Dir()), n, p)
  }

  lemma AddedKeeps(s: State, s': State, n: Name, pref: bool, par: nat, c: Order, q: nat)
    requires s.Ok() && q in s.chains
    requires par == 0 || par in Ids(s.shape)
    requires Added(s, s', n, pref, par, c)
    ensures Keeps(s.ar, s'.ar, s.roles, s'.roles, q)
  {
    hide Arena.Bytes, Arena.Ok, SectionAt, Insert, Linked, Ordered, Inv, NewBytes;
    assert par in s.chains ==> SectionOk(s.ar, s.roles, par, s.chains[par]);
  }

  lemma AddedNew(s: State, s': State, n: Name, pref: bool, par: nat, c: Order)
    requires s.Ok() && (!pref ==> !Marked(n)) && Added(s, s', n, pref, par, c)
    ensures var p := s.ar.Entries();
      && p !in s.chains
      && SectionOk(s'.ar, s'.roles, p, []) && SectionAt(s'.ar, s'.roles, p, []) == Section(n, n, !pref)
  {
    hide Arena.Bytes, Arena.Ok, SectionAt, Insert, Linked, Ordered, Inv, NewBytes, SectionOk;
    SectionsAreEntries(s, s.ar.Entries());
    NewSection(s'.ar, s'.roles, s.ar.Entries(), n, pref);
  }

  lemma AddedStored(s: State, s': State, n: Name, pref: bool, par: nat, c: Order)
    requires s.Ok() && (!pref ==> !Marked(n))
    requires par == 0 || par in Ids(s.shape)
    requires Added(s, s', n, pref, par, c)
    ensures s'.Stored() && s'.Dir() == s.Dir()[s.ar.Entries() := Section(n, n, !pref)]
  {
    hide Arena.Bytes, Arena.Ok, SectionAt, Insert, Linked, Ordered, Inv, NewBytes, SectionOk, Keeps, KeysOf;
    var p := s.ar.Entries();
    AddedNew(s, s', n, pref, par, c);
    forall q | q in s.chains
      ensures Keeps(s.ar, s'.ar, s.roles, s'.roles, q)
    {
      AddedKeeps(s, s', n, pref, par, c, q);
    }
    OthersKept(s, s', p);
  }

  lemma AddedOk(s: State, s': State, n: Name, pref: bool, par: nat, c: Order)
    requires s.Ok() && (!pref ==> !Marked(n)) && Matches(s.Dir(), n) == {}
    requires (par, c) == LastNode(s.shape, KeysOf(s.Dir()), n, 0, Less)
    requires Added(s, s', n, pref, par, c)
    ensures s'.Ok() && s'.Dir() == s.Dir()[s.ar.Entries() := Section(n, n, !pref)]
  {
    hide Arena.Bytes, Arena.Ok, SectionAt, Compare, SectionOk, Inv, Matches;
    var p := s.ar.Entries();
    var keys := KeysOf(s.Dir());
    if s.shape.Node? {
      LastNodeIn(s.shape, keys, n, 0, Less);
    }
    AddedStored(s, s', n, pref, par, c);
    MatchesAreIn(s.shape, s.Dir(), n);
    SectionsAreEntries(s, p);
    assert p != 0 && p !in s.Dir();
    LookupKeepsInv(s.Dir(), n, pref, p);
    InsertIds(s.shape, keys, n, p);
    InsertOrdered(s.shape, keys, n, p);
    KeysUpdate(s.Dir(), p, Section(n, n, !pref));
    hide KeysOf, Ordered;
    AddedLinked(s, s', n, pref, par, c);
  }

  lemma AddedLinked(s: State, s': State, n: Name, pref: bool, par: nat, c: Order)
    requires s.Ok() && (par, c) == LastNode(s.shape, KeysOf(s.Dir()), n, 0, Less)
    requires Added(s, s', n, pref, par, c)
    ensures Linked(s'.shape, s'.ar.link, s'.rlink, s'.root)
  {
    hide Arena.Bytes, SectionAt, Compare, SectionOk, Inv, NewBytes;
    SectionsAreEntries(s, s.ar.Entries());
    var keys := KeysOf(s.Dir());
    if s.shape.Node? {
      LastNodeIn(s.shape, keys, n, 0, Less);
      ChainsAreEntries(s);
      hide State.Dir, State.Stored, KeysOf, Ordered;
      InsertLinked(s.shape, keys, n, s.ar.Entries(), s.ar.link, s.rlink, s'.ar.link, s'.rlink, s.root, 0, Less);
    }
  }

  lemma ChainsAreEntries(s: State)
    requires s.Stored()
    ensures forall p :: p in s.chains ==> 0 < p < s.ar.Entries()
  {
    forall p | p in s.chains
      ensures 0 < p < s.ar.Entries()
    {
      assert SectionOk(s.ar, s.roles, p, s.chains[p]);
    }
  }

  lemma SectionsAreEntries(s: State, p: nat)
    requires s.Stored() && p >= s.ar.Entries()
    ensures p !in s.chains
  {
    assert p in s.chains ==> SectionOk(s.ar, s.roles, p, s.chains[p]);
  }

  // ---------- a shorter key ----------

  /** `s'` is `s` with `m` as the length of the key of `r`. */
  ghost predicate Shortened(s: State, s': State, r: nat, m: nat)
    requires s.Stored() && r in s.chains
  {
    && s' == s.(ar := s'.ar) && s'.ar.Ok() && s'.ar.starts == s.ar.starts && s'.ar.link == s.ar.link
    && (forall i: nat :: i < s.ar.Entries() && i != r ==> s'.ar.Bytes(i) == s.ar.Bytes(i))
    && m < 0x1_0000 && SectionOk(s.ar, s.roles, r, s.chains[r])
    && s'.ar.Bytes(r) == [(m / 256) as Byte, (m % 256) as Byte] + s.ar.Bytes(r)[2..]
  }

  lemma ShortSection(s: State, s': State, r: nat, m: nat)
    requires s.Stored() && r in s.chains && Shortened(s, s', r, m) && m <= |s.Dir()[r].key|
    ensures SectionOk(s'.ar, s'.roles, r, s'.chains[r])
    ensures SectionAt(s'.ar, s'.roles, r, s'.chains[r]) == s.Dir()[r].(key := s.Dir()[r].key[..m])
  {
    hide Arena.Bytes, Arena.Ok, TextOf, Strip, Marked, ChunksOk, Chained;
    var ar, ar', chain := s.ar, s'.ar, s.chains[r];
    assert SectionOk(ar, s.roles, r, chain);
    ChainInRange(ar, s.roles, r, chain);
    assert PrefixLength(ar', r) == m;
    var c := ar.Bytes(r)[2..];
    assert ar'.Bytes(r)[2..] == c;
    var cs, cs' := Chunks(ar, r, chain), Chunks(ar', r, chain);
    forall i | 0 <= i < |cs|
      ensures cs'[i] == cs[i]
    {
      if i > 0 {
        assert chain[i - 1] != r;
        assert cs'[i - 1 + 1] == ar'.Bytes(chain[i - 1]);
      }
    }
    assert cs' == cs;
    StripIsPrefix(c);
    assert c[..PrefixLength(ar, r)][..m] == c[..m];
  }

  lemma StripIsPrefix(c: Name)
    ensures Strip(c) <= c
  {
  }

  lemma ShortenedKeeps(s: State, s': State, r: nat, m: nat, p: nat)
    requires s.Stored() && r in s.chains && Shortened(s, s', r, m) && p in s.chains && p != r
    ensures Keeps(s.ar, s'.ar, s.roles, s'.roles, p)
  {
    hide Arena.Bytes, Arena.Ok, ChunksOk, ChainOk, Strip;
    assert SectionOk(s.ar, s.roles, r, s.chains[r]);
  }

  lemma ShortenedStored(s: State, s': State, r: nat, m: nat)
    requires s.Stored() && r in s.chains && Shortened(s, s', r, m) && m <= |s.Dir()[r].key|
    ensures s'.Stored() && s'.Dir() == s.Dir()[r := s.Dir()[r].(key := s.Dir()[r].key[..m])]
  {
    hide Arena.Bytes, Arena.Ok, SectionAt, SectionOk, Keeps;
    ShortSection(s, s', r, m);
    forall p | p in s.chains && p != r
      ensures Keeps(s.ar, s'.ar, s.roles, s'.roles, p)
    {
      ShortenedKeeps(s, s', r, m, p);
    }
    OthersKept(s, s', r);
  }

  lemma ShortenedOk(s: State, s': State, r: nat, n: Name)
    requires s.Ok() && r in s.chains && n <= s.Dir()[r].key && Matches(s.Dir(), n) == {r}
    requires Shortened(s, s', r, |n|)
    ensures s'.Ok() && s'.Dir() == s.Dir()[r := s.Dir()[r].(key := n)]
  {
    hide Arena.Bytes, Arena.Ok, SectionAt, SectionOk, Keeps, Compare, Comparable, Inv;
    var d := s.Dir();
    ShortenedStored(s, s', r, |n|);
    assert d[r].key[..|n|] == n;
    InvUpdate(d, r, d[r].(key := n));
    hide Shortened, State.Stored;
    var d' := s'.Dir();
    assert d' == d[r := d[r].(key := n)];
    KeysUpdate(d, r, d[r].(key := n));
    forall x | x in d && x != r
      ensures !Comparable(n, d[x].key)
    {
      assert x !in Matches(d, n);
    }
    ShortenOrdered(s.shape, KeysOf(d), r, n);
  }

  // ---------- a longer name ----------

  /** `s'` is `s` with a new chunk for section `r`. */
  ghost predicate Extended(s: State, s': State, r: nat, chunk: Name)
    requires s.Stored() && r in s.chains
  {
    var e := s.ar.Entries();
    var chain := s.chains[r];
    var last := if chain == [] then r + 1 else chain[|chain| - 1];
    && s'.ar.Ok() && s'.ar.Entries() == e + 1 && |s'.rlink| == |s'.ar.starts|
    && s'.roles == s.roles + [Chunk(r, |chain|)]
    && (forall i: nat :: i < e ==> s'.ar.Bytes(i) == s.ar.Bytes(i))
    && s'.ar.Bytes(e) == chunk
    && (forall i: nat :: i < e ==> s'.ar.link[i] == if i == last then e else s.ar.link[i])
    && s'.ar.link[e] == 0
    && (forall i: nat :: i < e ==> s'.rlink[i] == s.rlink[i])
    && s'.root == s.root && s'.shape == s.shape
    && s'.chains == s.chains[r := chain + [e]]
  }

  lemma LongSection(s: State, s': State, r: nat, chunk: Name)
    requires s.Stored() && r in s.chains && !s.Dir()[r].complete && Extended(s, s', r, chunk)
    requires Strip(chunk) == [] ==> chunk == []
    ensures SectionOk(s'.ar, s'.roles, r, s'.chains[r])
    ensures SectionAt(s'.ar, s'.roles, r, s'.chains[r])
         == s.Dir()[r].(text := s.Dir()[r].text + Strip(chunk), complete := !Marked(chunk))
  {
    hide Arena.Bytes, Arena.Ok, TextOf, Strip, Chained, ChainOk, Marked, ChunksOk;
    LongChunks(s, s', r, chunk);
    LongChain(s, s', r, chunk);
    FirstMarked(s, r);
    var d := s.Dir()[r];
    assert d == SectionAt(s.ar, s.roles, r, s.chains[r]);
    hide State.Dir;
    LongValue(s.ar, s'.ar, s.roles, s'.roles, r, s.chains[r], s'.chains[r], chunk);
  }

  lemma LongValue(ar: Arena, ar': Arena, roles: seq<Role>, roles': seq<Role>, r: nat, chain: seq<nat>, chain': seq<nat>,
                  chunk: Name)
    requires ar.Ok() && ar'.Ok() && SectionOk(ar, roles, r, chain) && !SectionAt(ar, roles, r, chain).complete
    requires r < ar'.Entries() == |roles'| && roles'[r].SectionNode? && ar'.Bytes(r) == ar.Bytes(r)
    requires ChainOk(ar', roles', r, chain')
    requires forall i :: 0 <= i < |chain'| ==> chain'[i] < ar'.Entries()
    requires forall i :: 0 <= i < |chain| ==> chain[i] < ar.Entries()
    requires Chunks(ar', r, chain') == Chunks(ar, r, chain) + [chunk]
    requires Strip(chunk) == [] ==> chunk == []
    ensures SectionOk(ar', roles', r, chain')
    ensures SectionAt(ar', roles', r, chain')
         == SectionAt(ar, roles, r, chain).(text := SectionAt(ar, roles, r, chain).text + Strip(chunk),
                                            complete := !Marked(chunk))
  {
    hide Arena.Bytes, Arena.Ok, TextOf, Strip, Chained, ChainOk, Marked, ChunksOk;
    LongText(Chunks(ar, r, chain), chunk);
    StripIsPrefix(ar.Bytes(r)[2..]);
  }

  lemma LongText(cs: seq<Name>, chunk: Name)
    requires ChunksOk(cs) && !CompleteOf(cs) && (Strip(chunk) == [] ==> chunk == [])
    ensures ChunksOk(cs + [chunk]) && TextOf(cs + [chunk]) == TextOf(cs) + Strip(chunk)
    ensures CompleteOf(cs + [chunk]) == !Marked(chunk)
  {
    hide TextOf, Strip;
    TextOfAppend(cs, [chunk]);
    TextOfOne(chunk);
  }

  lemma LongChunks(s: State, s': State, r: nat, chunk: Name)
    requires s.Stored() && r in s.chains && Extended(s, s', r, chunk)
    ensures var chain := s.chains[r]; var chain' := s'.chains[r];
      && SectionOk(s.ar, s.roles, r, chain) && s'.ar.Bytes(r) == s.ar.Bytes(r)
      && (forall i :: 0 <= i < |chain| ==> chain[i] < s.ar.Entries())
      && (forall i :: 0 <= i < |chain'| ==> chain'[i] < s'.ar.Entries())
      && Chunks(s'.ar, r, chain') == Chunks(s.ar, r, chain) + [chunk]
  {
    hide Arena.Bytes, Arena.Ok, Strip, TextOf, Marked, ChunksOk;
    assert SectionOk(s.ar, s.roles, r, s.chains[r]);
    var chain' := s'.chains[r];
    assert forall i :: 0 <= i < |chain'| ==> chain'[i] < s'.ar.Entries();
    var cs, cs' := Chunks(s.ar, r, s.chains[r]), Chunks(s'.ar, r, chain');
    forall i | 0 <= i < |cs'|
      ensures cs'[i] == (cs + [chunk])[i]
    {
      if i > 0 {
        assert cs'[i - 1 + 1] == s'.ar.Bytes(chain'[i - 1]);
      }
    }
  }

  lemma LongChained(link: seq<nat>, link': seq<nat>, roles: seq<Role>, r: nat, chain: seq<nat>)
    requires |link| > |roles| && |link'| > |roles| + 1 && Chained(link, roles, r, chain) && |roles| > 0
    requires forall i: nat :: i < |roles| && i != (if chain == [] then r + 1 else chain[|chain| - 1]) ==>
             link'[i] == link[i]
    requires chain != [] ==> link'[chain[|chain| - 1]] == |roles|
    requires link'[|roles|] == 0
    ensures Chained(link', roles + [Chunk(r, |chain|)], r, chain + [|roles|])
  {
    var chain' := chain + [|roles|];
    forall i {:trigger chain'[i]} | 0 <= i < |chain'|
      ensures link'[chain'[i]] == Next(chain', i + 1)
    {
      if i < |chain| - 1 {
        assert roles[chain[|chain| - 1]] == Chunk(r, |chain| - 1) && roles[chain[i]] == Chunk(r, i);
        assert link[chain[i]] == chain[i + 1];
      }
    }
  }

  lemma LongChain(s: State, s': State, r: nat, chunk: Name)
    requires s.Stored() && r in s.chains && !s.Dir()[r].complete && Extended(s, s', r, chunk)
    ensures |s'.ar.Bytes(r)| >= 2 && ChainOk(s'.ar, s'.roles, r, s'.chains[r])
  {
    hide Arena.Bytes, Arena.Ok, Chained, ChunksOk, TextOf, Strip;
    var chain := s.chains[r];
    FirstMarked(s, r);
    ChainInRange(s.ar, s.roles, r, chain);
    hide Marked, Chunks;
    assert s.roles[r + 1].Dummy?;
    LongChained(s.ar.link, s'.ar.link, s.roles, r, chain);
  }

  /** The first chunk of an incomplete name is marked. */
  lemma FirstMarked(s: State, r: nat)
    requires s.Stored() && r in s.chains && !s.Dir()[r].complete
    ensures SectionOk(s.ar, s.roles, r, s.chains[r]) && Marked(s.ar.Bytes(r)[2..])
  {
    hide Arena.Bytes, Arena.Ok, Chained, TextOf, Strip;
    assert SectionOk(s.ar, s.roles, r, s.chains[r]);
    ChainInRange(s.ar, s.roles, r, s.chains[r]);
    assert Marked(Chunks(s.ar, r, s.chains[r])[0]);
  }

  lemma ExtendedOk(s: State, s': State, r: nat, chunk: Name)
    requires s.Ok() && r in s.chains && !s.Dir()[r].complete && Extended(s, s', r, chunk)
    requires Strip(chunk) == [] ==> chunk == []
    ensures s'.Ok()
    ensures s'.Dir() == s.Dir()[r := s.Dir()[r].(text := s.Dir()[r].text + Strip(chunk), complete := !Marked(chunk))]
  {
    hide Arena.Bytes, Arena.Ok, SectionAt, SectionOk, Keeps, Compare, Comparable, Strip, Marked, Inv;
    var d := s.Dir();
    ExtendedStored(s, s', r, chunk);
    hide State.Stored;
    InvUpdate(d, r, d[r].(text := d[r].text + Strip(chunk), complete := !Marked(chunk)));
    var d' := s'.Dir();
    assert d' == d[r := d[r].(text := d[r].text + Strip(chunk), complete := !Marked(chunk))];
    assert KeysOf(d') == KeysOf(d);
    ExtendedLinked(s, s', r, chunk);
  }

  lemma ExtendedStored(s: State, s': State, r: nat, chunk: Name)
    requires s.Stored() && r in s.chains && !s.Dir()[r].complete && Extended(s, s', r, chunk)
    requires Strip(chunk) == [] ==> chunk == []
    ensures s'.Stored()
    ensures s'.Dir() == s.Dir()[r := s.Dir()[r].(text := s.Dir()[r].text + Strip(chunk), complete := !Marked(chunk))]
  {
    hide Arena.Bytes, Arena.Ok, SectionAt, SectionOk, Keeps, Strip, Marked;
    LongSection(s, s', r, chunk);
    ExtendedKeeps(s, s', r, chunk);
    OthersKept(s, s', r);
  }

  lemma ExtendedKeeps(s: State, s': State, r: nat, chunk: Name)
    requires s.Stored() && r in s.chains && !s.Dir()[r].complete && Extended(s, s', r, chunk)
    ensures forall p :: p in s.chains && p != r ==> Keeps(s.ar, s'.ar, s.roles, s'.roles, p)
  {
    hide Arena.Bytes, Arena.Ok, SectionAt, SectionOk;
    LastOwned(s, r);
  }

  /** The entry whose link changes is not a node of the tree and belongs to no other section. */
  lemma LastOwned(s: State, r: nat)
    requires s.Stored() && r in s.chains && !s.Dir()[r].complete
    ensures var chain := s.chains[r];
      var last := if chain == [] then r + 1 else chain[|chain| - 1];
      && last < s.ar.Entries() && !s.roles[last].SectionNode?
      && Owns(s.roles, last, r) && forall p: nat :: p != r ==> !Owns(s.roles, last, p)
  {
    hide Arena.Bytes, Arena.Ok, TextOf, Strip, ChunksOk, Chunks;
    FirstMarked(s, r);
  }

  lemma ExtendedLinked(s: State, s': State, r: nat, chunk: Name)
    requires s.Ok() && r in s.chains && !s.Dir()[r].complete && Extended(s, s', r, chunk)
    ensures Linked(s.shape, s'.ar.link, s'.rlink, s.root)
  {
    hide Arena.Bytes, SectionAt, Marked, Ordered, Inv, ChainOk, ChunksOk;
    LastOwned(s, r);
    forall x | x in Ids(s.shape)
      ensures x < s.ar.Entries() && s.roles[x].SectionNode?
    {
      assert SectionOk(s.ar, s.roles, x, s.chains[x]);
    }
    LinkedFrame(s.shape, s.ar.link, s.rlink, s'.ar.link, s'.rlink, s.root);
  }
}

/** The cross-references of CWEAVE, as lists of numbers: how a new one is put in its place, and which order that
    keeps. */
module XrefLists {

  const CITE_FLAG: nat := 10240
  const DEF_FLAG: nat := 20480
  const FILE_FLAG: nat := 30720

  type Xrefs = seq<nat>

  // ---------- identifiers ----------

  /** `new_xref`: the reference `m` is for the current section; a definition replaces a use in the same section. */
  function WithXref(v: Xrefs, m: nat): Xrefs {
    if v != [] && (v[0] == m || v[0] == m + DEF_FLAG) then v
    else if v != [] && m == v[0] + DEF_FLAG then v[0 := m]
    else [m] + v
  }

  /** The section of a reference of an identifier. */
  function SectionOf(n: nat): nat {
    if n >= DEF_FLAG then n - DEF_FLAG else n
  }

  predicate IsXref(n: nat, s: nat) {
    0 < SectionOf(n) <= s < CITE_FLAG
  }

  /** Every section is there at most once, the latest first, and none is later than `s`. */
  predicate Descending(v: Xrefs, s: nat) {
    && (forall i :: 0 <= i < |v| ==> IsXref(v[i], s))
    && (forall i, j :: 0 <= i < j < |v| ==> SectionOf(v[i]) > SectionOf(v[j]))
  }

  /** While sections come in order, lists stay in order; the section gets its place in front, marked as a definition
      if the new reference or an earlier one in the same section is one; and nothing else changes. */
  lemma WithXrefDescends(v: Xrefs, s: nat, s': nat, def: bool)
    requires Descending(v, s) && s <= s' && 0 < s' < CITE_FLAG
    ensures var m := if def then s' + DEF_FLAG else s';
      var v' := WithXref(v, m);
      && Descending(v', s') && v' != [] && SectionOf(v'[0]) == s'
      && (v'[0] == s' + DEF_FLAG <==> def || (v != [] && v[0] == s' + DEF_FLAG))
      && v'[1..] == if v != [] && SectionOf(v[0]) == s' then v[1..] else v
  {
    var m := if def then s' + DEF_FLAG else s';
    var v' := WithXref(v, m);
    if v == [] || SectionOf(v[0]) != s' {
      assert v' == [m] + v;
    }
  }

  /** A reference in some section. */
  datatype Use = Use(section: nat, def: bool)

  /** The list after a run of references, the earliest first. */
  function AfterUses(us: seq<Use>): Xrefs {
    if us == [] then []
    else
      var u := us[|us| - 1];
      WithXref(AfterUses(us[..|us| - 1]), if u.def then u.section + DEF_FLAG else u.section)
  }

  /** The run comes from sections in order. */
  predicate InSections(us: seq<Use>, s: nat) {
    && s < CITE_FLAG && (forall i :: 0 <= i < |us| ==> 0 < us[i].section <= s)
    && forall i, j :: 0 <= i < j < |us| ==> us[i].section <= us[j].section
  }

  /** The list says whether there is a reference in section `n`, and whether one there is a definition. */
  predicate Lists(v: Xrefs, us: seq<Use>, n: nat) {
    && (n + DEF_FLAG in v <==> Use(n, true) in us)
    && (n in v <==> Use(n, false) in us && Use(n, true) !in us)
  }

  /** The list of an identifier says exactly in which sections it is used, and in which of them it is defined. */
  lemma {:induction false} UsesAreListed(us: seq<Use>, s: nat)
    requires InSections(us, s)
    ensures Descending(AfterUses(us), if us == [] then s else us[|us| - 1].section)
            && (us == [] ==> AfterUses(us) == [])
    ensures forall n: nat :: 0 < n < CITE_FLAG ==> Lists(AfterUses(us), us, n)
  {
    if us != [] {
      UsesAreListed(us[..|us| - 1], s);
      LastUse(us, s);
    }
  }

  lemma LastUse(us: seq<Use>, s: nat)
    requires InSections(us, s) && us != []
    requires var before := us[..|us| - 1];
      && Descending(AfterUses(before), if before == [] then s else before[|before| - 1].section)
      && (before == [] ==> AfterUses(before) == [])
      && forall n: nat :: 0 < n < CITE_FLAG ==> Lists(AfterUses(before), before, n)
    ensures Descending(AfterUses(us), us[|us| - 1].section)
    ensures forall n: nat :: 0 < n < CITE_FLAG ==> Lists(AfterUses(us), us, n)
  {
    hide WithXref, Descending, Lists;
    var u := us[|us| - 1];
    var before := us[..|us| - 1];
    assert us == before + [u];
    var v := AfterUses(before);
    var r := if before == [] then u.section else before[|before| - 1].section;
    StillDescending(v, if before == [] then s else r, r, u.section, before == []);
    WithXrefDescends(v, u.section, u.section, u.def);
    ListedStep(before, u, v);
  }

  lemma StillDescending(v: Xrefs, s: nat, r: nat, s': nat, none: bool)
    requires Descending(v, s) && r <= s' < CITE_FLAG && if none then v == [] else s == r
    ensures Descending(v, s')
  {
  }

  lemma ListedStep(us: seq<Use>, u: Use, v: Xrefs)
    requires 0 < u.section < CITE_FLAG && Descending(v, u.section)
    requires forall n: nat :: 0 < n < CITE_FLAG ==> Lists(v, us, n)
    ensures var v' := WithXref(v, if u.def then u.section + DEF_FLAG else u.section);
      forall n: nat :: 0 < n < CITE_FLAG ==> Lists(v', us + [u], n)
  {
    hide WithXref, Descending;
    var s := u.section;
    var v' := WithXref(v, if u.def then s + DEF_FLAG else s);
    WithXrefDescends(v, s, s, u.def);
    OnlyFront(v, s);
    forall n: nat | 0 < n < CITE_FLAG
      ensures Lists(v', us + [u], n)
    {
      assert Lists(v, us, n);
      assert SectionOf(n) == n && SectionOf(n + DEF_FLAG) == n;
      InFront(v, v', s, n);
      InFront(v, v', s, n + DEF_FLAG);
      assert u == Use(s, u.def);
    }
  }

  /** What is in the list afterwards. */
  lemma InFront(v: Xrefs, v': Xrefs, s: nat, x: nat)
    requires v' != [] && v'[1..] == if v != [] && SectionOf(v[0]) == s then v[1..] else v
    requires SectionOf(v'[0]) == s && (forall y :: y in v && SectionOf(y) == s ==> y == v[0])
    requires v != [] ==> forall y :: y in v[1..] ==> y in v && SectionOf(y) < s
    ensures SectionOf(x) == s ==> (x in v' <==> x == v'[0]) && (x in v ==> x == v[0])
    ensures SectionOf(x) != s ==> (x in v' <==> x in v)
  {
    assert x in v' <==> x == v'[0] || x in v'[1..];
    assert v != [] ==> (x in v <==> x == v[0] || x in v[1..]);
  }

  /** The current section can only be in front. */
  lemma OnlyFront(v: Xrefs, s: nat)
    requires Descending(v, s)
    ensures forall x :: x in v && SectionOf(x) == s ==> x == v[0]
    ensures v != [] ==> forall x :: x in v[1..] ==> x in v && SectionOf(x) < s
  {
    if v != [] {
      forall x | x in v[1..]
        ensures x in v && SectionOf(x) < s
      {
        var i :| 0 <= i < |v[1..]| && v[1..][i] == x;
        assert x == v[i + 1] && IsXref(v[0], s) && SectionOf(v[0]) > SectionOf(v[i + 1]);
      }
    }
  }

  function Reversed(v: seq<nat>): (r: seq<nat>)
    ensures |r| == |v|
  {
    if v == [] then [] else Reversed(v[1..]) + [v[0]]
  }

  lemma {:induction false} ReversedAt(v: seq<nat>, i: nat)
    requires i < |v|
    ensures Reversed(v)[i] == v[|v| - 1 - i]
  {
    if i < |v| - 1 {
      ReversedAt(v[1..], i);
    }
  }

  /** Reversed, as it is printed, the list has the sections in order. */
  lemma PrintedAscending(v: Xrefs, s: nat)
    requires Descending(v, s)
    ensures var r := Reversed(v); forall i, j :: 0 <= i < j < |r| ==> SectionOf(r[i]) < SectionOf(r[j])
  {
    var r := Reversed(v);
    forall i, j | 0 <= i < j < |r|
      ensures SectionOf(r[i]) < SectionOf(r[j])
    {
      ReversedAt(v, i);
      ReversedAt(v, j);
    }
  }

  /** The place where `underline_xref` stops: at the first reference that the new one replaces or that it comes
      before. */
  function UnderlinePlace(v: Xrefs, m: nat): (k: nat)
    ensures k <= |v|
  {
    if v == [] || v[0] == m || m == v[0] + DEF_FLAG || (v[0] >= DEF_FLAG && v[0] < m) then 0
    else 1 + UnderlinePlace(v[1..], m)
  }

  /** `underline_xref`: the definition `m` is put among the references, or replaces a use in the same section. */
  function Underlined(v: Xrefs, m: nat): Xrefs {
    var k := UnderlinePlace(v, m);
    if k < |v| && v[k] == m then v
    else if k < |v| && m == v[k] + DEF_FLAG then v[k := m]
    else v[..k] + [m] + v[k..]
  }

  lemma {:induction false} PlaceIs(v: Xrefs, m: nat)
    ensures var k := UnderlinePlace(v, m);
      && (k < |v| ==> v[k] == m || m == v[k] + DEF_FLAG || (v[k] >= DEF_FLAG && v[k] < m))
      && forall i :: 0 <= i < k ==> v[i] != m && m != v[i] + DEF_FLAG && (v[i] >= DEF_FLAG ==> v[i] >= m)
  {
    if !(v == [] || v[0] == m || m == v[0] + DEF_FLAG || (v[0] >= DEF_FLAG && v[0] < m)) {
      PlaceIs(v[1..], m);
      assert forall i :: 0 < i <= UnderlinePlace(v[1..], m) && i < |v| ==> v[i] == v[1..][i - 1];
    }
  }

  /** The place of the first reference in section `n` or an earlier one. */
  function FirstUpTo(v: Xrefs, n: nat): (p: nat)
    ensures p <= |v| && (p < |v| ==> SectionOf(v[p]) <= n) && forall i :: 0 <= i < p ==> SectionOf(v[i]) > n
  {
    if v == [] || SectionOf(v[0]) <= n then 0 else 1 + FirstUpTo(v[1..], n)
  }

  /** The list stays in order exactly if the latest reference that is not later than section `n` is in section `n`
      itself or is a definition. Otherwise the new definition comes after a use in an earlier section. */
  lemma UnderlinedDescendsIff(v: Xrefs, s: nat, n: nat)
    requires Descending(v, s) && 0 < n <= s < CITE_FLAG
    ensures var p := FirstUpTo(v, n);
      Descending(Underlined(v, n + DEF_FLAG), s) <==> p == |v| || SectionOf(v[p]) == n || v[p] >= DEF_FLAG
  {
    hide UnderlinePlace, FirstUpTo, Descending, Underlined;
    var m, p, k := n + DEF_FLAG, FirstUpTo(v, n), UnderlinePlace(v, n + DEF_FLAG);
    UnderlinedWhere(v, s, n);
    UnderlinedIs(v, n);
    if p < |v| && SectionOf(v[p]) == n {
      ReplacedDescends(v, p, m, s);
    } else if p == |v| || v[p] >= DEF_FLAG {
      InsertedDescends(v, k, m, s);
    } else if Descending(v[..k] + [m] + v[k..], s) {
      InsertedBefore(v, k, m, s);
    }
  }

  lemma UnderlinedIs(v: Xrefs, n: nat)
    requires 0 < n < CITE_FLAG
    ensures var k, m := UnderlinePlace(v, n + DEF_FLAG), n + DEF_FLAG;
      Underlined(v, m) == if k < |v| && (v[k] == m || v[k] == n) then v[k := m] else v[..k] + [m] + v[k..]
  {
    hide UnderlinePlace;
  }

  /** Where the search stops. */
  lemma UnderlinedWhere(v: Xrefs, s: nat, n: nat)
    requires Descending(v, s) && 0 < n <= s < CITE_FLAG
    ensures var p, k := FirstUpTo(v, n), UnderlinePlace(v, n + DEF_FLAG);
      && (p == |v| || SectionOf(v[p]) == n || v[p] >= DEF_FLAG ==> k == p)
      && (p < |v| && SectionOf(v[p]) < n && v[p] < DEF_FLAG ==> p < k)
      && (p < |v| && SectionOf(v[p]) == n ==> v[p] == n || v[p] == n + DEF_FLAG)
      && (k < |v| && (v[k] == n || v[k] == n + DEF_FLAG) ==> k == p)
      && (forall i :: p <= i < |v| ==> SectionOf(v[i]) <= n)
  {
    hide UnderlinePlace, FirstUpTo;
    PlaceIs(v, n + DEF_FLAG);
  }

  lemma ReplacedDescends(v: Xrefs, k: nat, m: nat, s: nat)
    requires Descending(v, s) && k < |v| && IsXref(m, s) && SectionOf(v[k]) == SectionOf(m)
    ensures Descending(v[k := m], s)
  {
  }

  lemma InsertedBefore(v: Xrefs, k: nat, m: nat, s: nat)
    requires k <= |v| && Descending(v[..k] + [m] + v[k..], s)
    ensures forall i :: 0 <= i < k ==> SectionOf(v[i]) > SectionOf(m)
  {
    var u := v[..k] + [m] + v[k..];
    forall i | 0 <= i < k
      ensures SectionOf(v[i]) > SectionOf(m)
    {
      assert u[i] == v[i] && u[k] == m;
    }
  }

  lemma InsertedDescends(v: Xrefs, k: nat, m: nat, s: nat)
    requires Descending(v, s) && k <= |v| && IsXref(m, s) && forall i :: 0 <= i < k ==> SectionOf(v[i]) > SectionOf(m)
    requires k < |v| ==> SectionOf(v[k]) < SectionOf(m)
    ensures Descending(v[..k] + [m] + v[k..], s)
  {
    var u := v[..k] + [m] + v[k..];
    assert forall i :: k <= i < |v| ==> SectionOf(v[i]) < SectionOf(m);
    forall i | 0 <= i < |u|
      ensures u[i] == if i < k then v[i] else if i == k then m else v[i - 1]
    {
    }
  }

  /** Such a list: after a definition in section 2 and a use in section 3; a definition in section 5 that is then
      underlined comes between them. */
  lemma UnderlinedOutOfOrder()
    ensures AfterUses([Use(2, true), Use(3, false)]) == [3, 2 + DEF_FLAG]
    ensures Descending([3, 2 + DEF_FLAG], 5)
    ensures Underlined([3, 2 + DEF_FLAG], 5 + DEF_FLAG) == [3, 5 + DEF_FLAG, 2 + DEF_FLAG]
  {
    var v: Xrefs := [3, 2 + DEF_FLAG];
    var us := [Use(2, true), Use(3, false)];
    assert us[..1] == [Use(2, true)] && us[..1][..0] == [] && AfterUses([]) == [];
    assert AfterUses(us[..1]) == [2 + DEF_FLAG];
    assert v[1..] == [2 + DEF_FLAG];
    assert UnderlinePlace(v[1..], 5 + DEF_FLAG) == 0;
    assert UnderlinePlace(v, 5 + DEF_FLAG) == 1;
  }

  /** In a list of definitions only, it always stays in order. */
  lemma DefinitionsStayInOrder(v: Xrefs, s: nat, n: nat)
    requires Descending(v, s) && 0 < n <= s < CITE_FLAG && forall i :: 0 <= i < |v| ==> v[i] >= DEF_FLAG
    ensures Descending(Underlined(v, n + DEF_FLAG), s) && n + DEF_FLAG in Underlined(v, n + DEF_FLAG)
  {
    PlaceIs(v, n + DEF_FLAG);
    UnderlinedDescendsIff(v, s, n);
  }

  /** The list after definitions in the sections `ns` have been underlined, the earliest first. */
  function AfterUnderlines(v: Xrefs, ns: seq<nat>): Xrefs {
    if ns == [] then v else Underlined(AfterUnderlines(v, ns[..|ns| - 1]), ns[|ns| - 1] + DEF_FLAG)
  }

  predicate HasSection(v: Xrefs, n: nat) {
    exists j :: 0 <= j < |v| && SectionOf(v[j]) == n
  }

  predicate Defines(v: Xrefs, n: nat) {
    n + DEF_FLAG in v
  }

  predicate OnlyDefinitions(v: Xrefs) {
    forall j :: 0 <= j < |v| ==> v[j] >= DEF_FLAG
  }

  /** Where every section already has a reference in the list, or the list has only definitions, any run of underlines
      keeps the list in order; and it puts exactly these definitions there. */
  lemma {:induction false} UnderlinesKeepOrder(v: Xrefs, s: nat, ns: seq<nat>)
    requires Descending(v, s) && s < CITE_FLAG && forall i :: 0 <= i < |ns| ==> 0 < ns[i] <= s
    requires OnlyDefinitions(v) || forall i :: 0 <= i < |ns| ==> HasSection(v, ns[i])
    ensures Descending(AfterUnderlines(v, ns), s)
    ensures OnlyDefinitions(v) ==> OnlyDefinitions(AfterUnderlines(v, ns))
    ensures forall n: nat :: HasSection(AfterUnderlines(v, ns), n) <==> HasSection(v, n) || n in ns
    ensures forall n: nat :: Defines(AfterUnderlines(v, ns), n) <==> Defines(v, n) || n in ns
    decreases |ns|
  {
    hide Descending, OnlyDefinitions, HasSection, Defines, Underlined;
    if ns != [] {
      var before, n := ns[..|ns| - 1], ns[|ns| - 1];
      assert ns == before + [n];
      UnderlinesKeepOrder(v, s, before);
      UnderlineKeeps(AfterUnderlines(v, before), s, n);
    }
  }

  lemma UnderlineKeeps(v: Xrefs, s: nat, n: nat)
    requires Descending(v, s) && 0 < n <= s < CITE_FLAG && (OnlyDefinitions(v) || HasSection(v, n))
    ensures var v' := Underlined(v, n + DEF_FLAG);
      && Descending(v', s) && (OnlyDefinitions(v) ==> OnlyDefinitions(v'))
      && (forall k: nat :: HasSection(v', k) <==> HasSection(v, k) || k == n)
      && (forall k: nat :: Defines(v', k) <==> Defines(v, k) || k == n)
  {
    hide UnderlinePlace, FirstUpTo, Underlined;
    var p, m := FirstUpTo(v, n), n + DEF_FLAG;
    UnderlinedWhere(v, s, n);
    UnderlinedIs(v, n);
    UnderlinedDescendsIff(v, s, n);
    if HasSection(v, n) {
      HereIfAnywhere(v, s, n);
    }
    if p < |v| && SectionOf(v[p]) == n {
      ReplacedHas(v, p, n, s);
    } else {
      InsertedHas(v, p, n, s);
    }
  }

  lemma HereIfAnywhere(v: Xrefs, s: nat, n: nat)
    requires Descending(v, s) && HasSection(v, n)
    ensures FirstUpTo(v, n) < |v| && SectionOf(v[FirstUpTo(v, n)]) == n
  {
    hide FirstUpTo;
    var p := FirstUpTo(v, n);
    FirstUpToIs(v, n);
    var j :| 0 <= j < |v| && SectionOf(v[j]) == n;
  }

  lemma FirstUpToIs(v: Xrefs, n: nat)
    ensures var p := FirstUpTo(v, n);
      p <= |v| && (p < |v| ==> SectionOf(v[p]) <= n) && forall i :: 0 <= i < p ==> SectionOf(v[i]) > n
  {
  }

  lemma ReplacedHas(v: Xrefs, p: nat, n: nat, s: nat)
    requires p < |v| && SectionOf(v[p]) == n && n <= s < CITE_FLAG
    ensures var v' := v[p := n + DEF_FLAG];
      && (OnlyDefinitions(v) ==> OnlyDefinitions(v'))
      && (forall k: nat :: HasSection(v', k) <==> HasSection(v, k) || k == n)
      && (forall k: nat :: Defines(v', k) <==> Defines(v, k) || k == n)
  {
    var v' := v[p := n + DEF_FLAG];
    assert v'[p] == n + DEF_FLAG && SectionOf(n + DEF_FLAG) == n;
    forall k: nat
      ensures HasSection(v', k) <==> HasSection(v, k) || k == n
    {
      SameSections(v, v', k);
      SameSections(v', v, k);
    }
    forall k: nat
      ensures Defines(v', k) <==> Defines(v, k) || k == n
    {
      assert SectionOf(k + DEF_FLAG) == k;
      if k + DEF_FLAG in v {
        var j :| 0 <= j < |v| && v[j] == k + DEF_FLAG;
        assert j != p ==> v'[j] == v[j];
      }
    }
  }

  lemma SameSections(a: Xrefs, b: Xrefs, k: nat)
    requires |a| == |b| && forall j :: 0 <= j < |a| ==> SectionOf(a[j]) == SectionOf(b[j])
    ensures HasSection(a, k) ==> HasSection(b, k)
  {
    if HasSection(a, k) {
      var j :| 0 <= j < |a| && SectionOf(a[j]) == k;
      assert SectionOf(b[j]) == k;
    }
  }

  lemma InsertedHas(v: Xrefs, p: nat, n: nat, s: nat)
    requires p <= |v| && n <= s < CITE_FLAG
    ensures var v' := v[..p] + [n + DEF_FLAG] + v[p..];
      && (OnlyDefinitions(v) ==> OnlyDefinitions(v'))
      && (forall k: nat :: HasSection(v', k) <==> HasSection(v, k) || k == n)
      && (forall k: nat :: Defines(v', k) <==> Defines(v, k) || k == n)
  {
    var m := n + DEF_FLAG;
    var v' := v[..p] + [m] + v[p..];
    assert v == v[..p] + v[p..];
    assert forall x :: x in v' <==> x in v || x == m;
    forall k: nat
      ensures HasSection(v', k) <==> HasSection(v, k) || k == n
    {
      HasIsIn(v, k);
      HasIsIn(v', k);
      assert m in v' && SectionOf(m) == n;
    }
    if OnlyDefinitions(v) {
      forall j | 0 <= j < |v'|
        ensures v'[j] >= DEF_FLAG
      {
        assert v'[j] in v';
      }
    }
  }

  lemma HasIsIn(v: Xrefs, k: nat)
    ensures HasSection(v, k) <==> exists x :: x in v && SectionOf(x) == k
  {
    if HasSection(v, k) {
      var j :| 0 <= j < |v| && SectionOf(v[j]) == k;
      assert v[j] in v;
    }
  }

  // ---------- sections ----------

  /** 3 for the file flag, 2 for a definition, 1 for a citation, 0 for a use. */
  function Kind(n: nat): nat {
    if n >= FILE_FLAG then 3 else if n > DEF_FLAG then 2 else if n > CITE_FLAG then 1 else 0
  }

  function FlagOf(kind: nat): nat {
    if kind == 2 then DEF_FLAG else if kind == 1 then CITE_FLAG else 0
  }

  /** The list with `m` in place `k`. */
  function Inserted(v: Xrefs, k: nat, m: nat): Xrefs
    requires k <= |v|
  {
    v[..k] + [m] + v[k..]
  }

  /** `new_section_xref`: after all references with greater numbers than the flag, unless the last of these is the
      same. */
  function SectionPlace(v: Xrefs, flag: nat): (k: nat)
    ensures k <= |v|
  {
    if v == [] || v[0] <= flag then 0 else 1 + SectionPlace(v[1..], flag)
  }

  function WithSectionXref(v: Xrefs, s: nat, flag: nat): Xrefs {
    var k := SectionPlace(v, flag);
    if k > 0 && v[k - 1] == s + flag then v else Inserted(v, k, s + flag)
  }

  /** `set_file_flag`. */
  function WithFileFlag(v: Xrefs): Xrefs {
    if v != [] && v[0] == FILE_FLAG then v else [FILE_FLAG] + v
  }

  predicate IsSectionXref(n: nat, s: nat) {
    n == FILE_FLAG || 0 < n - FlagOf(Kind(n)) <= s < CITE_FLAG
  }

  /** Perhaps the file flag, then definitions, citations and uses, each of them in order, none later than `s`. */
  predicate Grouped(v: Xrefs, s: nat) {
    && (forall i :: 0 <= i < |v| ==> IsSectionXref(v[i], s))
    && (forall i, j :: 0 <= i < j < |v| ==> Before(v[i], v[j]))
  }

  lemma {:induction false} SectionPlaceIs(v: Xrefs, s: nat, flag: nat)
    requires Grouped(v, s) && (flag == 0 || flag == CITE_FLAG || flag == DEF_FLAG)
    ensures var k := SectionPlace(v, flag);
      && (forall i :: 0 <= i < k ==> v[i] > flag) && (forall i :: k <= i < |v| ==> v[i] <= flag)
  {
    if v != [] {
      assert Grouped(v[1..], s);
      SectionPlaceIs(v[1..], s, flag);
      assert forall i :: 0 < i < |v| ==> v[i] == v[1..][i - 1];
      if v[0] <= flag {
        forall i | 0 < i < |v|
          ensures v[i] <= flag
        {
          assert Kind(v[0]) > Kind(v[i]) || (Kind(v[0]) == Kind(v[i]) && v[0] < v[i]);
        }
      }
    }
  }

  /** While sections come in order, the groups stay in order; the reference is there afterwards, and nothing else
      changes. */
  lemma WithSectionXrefGroups(v: Xrefs, s: nat, s': nat, flag: nat)
    requires Grouped(v, s) && s <= s' && 0 < s' < CITE_FLAG && (flag == 0 || flag == CITE_FLAG || flag == DEF_FLAG)
    ensures var v' := WithSectionXref(v, s', flag);
      Grouped(v', s') && OneMore(v, v', s' + flag)
  {
    hide SectionPlace, WithSectionXref, Grouped, Before, IsSectionXref, Inserted, OneMore;
    var k, m := SectionPlace(v, flag), s' + flag;
    SectionPlaceIs(v, s, flag);
    WithSectionXrefIs(v, s', flag);
    if k > 0 && v[k - 1] == m {
      StillGrouped(v, s, s');
      Already(v, m);
    } else {
      PlacedBefore(v, s, s', flag, k);
      InsertedGroups(v, k, m, s');
      InsertedOne(v, k, m);
    }
  }

  lemma WithSectionXrefIs(v: Xrefs, s: nat, flag: nat)
    ensures var k := SectionPlace(v, flag);
      WithSectionXref(v, s, flag) == if k > 0 && v[k - 1] == s + flag then v else Inserted(v, k, s + flag)
  {
    hide SectionPlace;
  }

  /** `v'` is `v`, or has one more element, which is `m`. */
  ghost predicate OneMore(v: Xrefs, v': Xrefs, m: nat) {
    (v' == v && m in v) || exists k :: 0 <= k <= |v| && v' == v[..k] + [m] + v[k..]
  }

  lemma Already(v: Xrefs, m: nat)
    requires m in v
    ensures OneMore(v, v, m)
  {
  }

  lemma InsertedOne(v: Xrefs, k: nat, m: nat)
    requires k <= |v|
    ensures OneMore(v, Inserted(v, k, m), m)
  {
  }

  /** So a number is in the list afterwards exactly if it was before or is the new one. */
  lemma OneMoreHas(v: Xrefs, v': Xrefs, m: nat)
    requires OneMore(v, v', m)
    ensures forall n: nat :: n in v' <==> n in v || n == m
  {
    if v' != v {
      var k :| 0 <= k <= |v| && v' == v[..k] + [m] + v[k..];
      assert v == v[..k] + v[k..];
    }
  }

  lemma StillGrouped(v: Xrefs, s: nat, s': nat)
    requires Grouped(v, s) && s <= s' < CITE_FLAG
    ensures Grouped(v, s')
  {
    forall i | 0 <= i < |v|
      ensures IsSectionXref(v[i], s')
    {
      assert IsSectionXref(v[i], s);
    }
  }

  /** What happens to the list of a section name: a reference in some section, or the file flag. */
  datatype Mention = Reference(section: nat, flag: nat) | OutputFile

  /** The list after a run of mentions, the earliest first. */
  function AfterMentions(ms: seq<Mention>): Xrefs {
    if ms == [] then []
    else
      var before := AfterMentions(ms[..|ms| - 1]);
      match ms[|ms| - 1]
      case Reference(s, flag) => WithSectionXref(before, s, flag)
      case OutputFile => WithFileFlag(before)
  }

  /** The references come from sections in order, none later than `s`. */
  predicate MentionsInOrder(ms: seq<Mention>, s: nat) {
    s < CITE_FLAG && (ms == [] ||
      (var before, m := ms[..|ms| - 1], ms[|ms| - 1];
       match m
       case Reference(s', flag) =>
         0 < s' <= s && (flag == 0 || flag == CITE_FLAG || flag == DEF_FLAG) && MentionsInOrder(before, s')
       case OutputFile => MentionsInOrder(before, s)))
  }

  function NumberOf(m: Mention): nat {
    match m case Reference(s, flag) => s + flag case OutputFile => FILE_FLAG
  }

  /** The list of a section name is grouped, and has exactly the numbers that it was mentioned with. */
  lemma {:induction false} MentionsAreListed(ms: seq<Mention>, s: nat)
    requires MentionsInOrder(ms, s)
    ensures Grouped(AfterMentions(ms), s)
    ensures forall n: nat :: n in AfterMentions(ms) <==> Mentioned(ms, n)
    decreases |ms|
  {
    hide Grouped, WithSectionXref, WithFileFlag, NumberOf, OneMore;
    if ms == [] {
      NoneGrouped(s);
    } else {
      var before, m := ms[..|ms| - 1], ms[|ms| - 1];
      var v, v' := AfterMentions(before), AfterMentions(ms);
      if m.Reference? {
        MentionsAreListed(before, m.section);
        WithSectionXrefGroups(v, m.section, m.section, m.flag);
        NumberIs(m);
        StillGrouped(v', m.section, s);
      } else {
        MentionsAreListed(before, s);
        WithFileFlagGroups(v, s);
        NumberIs(m);
      }
      OneMoreHas(v, v', NumberOf(m));
      forall n: nat
        ensures n in v' <==> Mentioned(ms, n)
      {
        MentionedNext(ms, n);
      }
    }
  }

  /** The number `n` stands for one of the mentions. */
  ghost predicate Mentioned(ms: seq<Mention>, n: nat) {
    exists i :: 0 <= i < |ms| && NumberOf(ms[i]) == n
  }

  lemma MentionedNext(ms: seq<Mention>, n: nat)
    requires ms != []
    ensures Mentioned(ms, n) <==> Mentioned(ms[..|ms| - 1], n) || n == NumberOf(ms[|ms| - 1])
  {
    var before := ms[..|ms| - 1];
    assert forall i :: 0 <= i < |before| ==> before[i] == ms[i];
    if Mentioned(before, n) {
      var i :| 0 <= i < |before| && NumberOf(before[i]) == n;
      assert NumberOf(ms[i]) == n;
    }
  }

  lemma NumberIs(m: Mention)
    ensures NumberOf(m) == match m case Reference(s, flag) => s + flag case OutputFile => FILE_FLAG
  {
  }

  lemma NoneGrouped(s: nat)
    ensures Grouped([], s)
  {
  }

  lemma PlacedBefore(v: Xrefs, s: nat, s': nat, flag: nat, k: nat)
    requires Grouped(v, s) && s <= s' && 0 < s' < CITE_FLAG && (flag == 0 || flag == CITE_FLAG || flag == DEF_FLAG)
    requires k <= |v| && (forall i :: 0 <= i < k ==> v[i] > flag) && (forall i :: k <= i < |v| ==> v[i] <= flag)
    requires k > 0 ==> v[k - 1] != s' + flag
    ensures (forall i :: 0 <= i < k ==> Before(v[i], s' + flag)) && forall i :: k <= i < |v| ==> Before(s' + flag, v[i])
    ensures IsSectionXref(s' + flag, s') && Grouped(v, s')
  {
    forall i | 0 <= i < k
      ensures Before(v[i], s' + flag)
    {
      assert i < k - 1 ==> Before(v[i], v[k - 1]);
      assert IsSectionXref(v[i], s) && IsSectionXref(v[k - 1], s);
    }
    forall i | 0 <= i < |v|
      ensures IsSectionXref(v[i], s')
    {
      assert IsSectionXref(v[i], s);
    }
  }

  predicate Before(m: nat, n: nat) {
    Kind(m) > Kind(n) || (Kind(m) == Kind(n) && m < n)
  }

  lemma InsertedGroups(v: Xrefs, k: nat, m: nat, s: nat)
    requires Grouped(v, s) && k <= |v| && IsSectionXref(m, s)
    requires (forall i :: 0 <= i < k ==> Before(v[i], m)) && forall i :: k <= i < |v| ==> Before(m, v[i])
    ensures Grouped(Inserted(v, k, m), s)
  {
    hide Kind, IsSectionXref;
    var u := v[..k] + [m] + v[k..];
    assert u[k] == m;
    forall i | 0 <= i < |u|
      ensures u[i] == if i < k then v[i] else if i == k then m else v[i - 1]
    {
    }
  }

  lemma WithFileFlagGroups(v: Xrefs, s: nat)
    requires Grouped(v, s)
    ensures Grouped(WithFileFlag(v), s) && OneMore(v, WithFileFlag(v), FILE_FLAG)
  {
    if v == [] || v[0] != FILE_FLAG {
      forall i | 0 <= i < |v|
        ensures Kind(v[i]) < 3
      {
        if i > 0 {
          assert Kind(v[0]) > Kind(v[i]) || (Kind(v[0]) == Kind(v[i]) && v[0] < v[i]);
        }
      }
    }
    assert WithFileFlag(v)[0] == FILE_FLAG
           && (WithFileFlag(v) != v ==> WithFileFlag(v) == v[..0] + [FILE_FLAG] + v[0..]);
  }
}

/** The memory of cross-references: linked lists, changed in place. */
module XrefMemories {
  import opened IndexLists
  import opened XrefLists

  /** The numbers in the entries `l`. */
  function Numbers(num: seq<nat>, l: seq<nat>): (v: Xrefs)
    requires forall i :: 0 <= i < |l| ==> l[i] < |num|
    ensures |v| == |l| && forall i :: 0 <= i < |l| ==> v[i] == num[l[i]]
  {
    seq(|l|, i requires 0 <= i < |l| => num[l[i]])
  }

  /** The entries `l`, linked from `head`, belong to name `p`. */
  ghost predicate ListOf(xlink: seq<nat>, owner: seq<nat>, head: nat, l: seq<nat>, p: nat) {
    IsList(xlink, head, l) && forall i :: 0 <= i < |l| ==> 0 < l[i] < |xlink| && l[i] < |owner| && owner[l[i]] == p
  }

  ghost predicate AllLists(xlink: seq<nat>, owner: seq<nat>, xref: seq<nat>, lists: seq<seq<nat>>) {
    |xlink| == |owner| > 0 && |xref| == |lists| && forall p: nat :: p < |xref| ==>
      ListOf(xlink, owner, xref[p], lists[p], p)
  }

  lemma ListKept(xlink: seq<nat>, xlink': seq<nat>, owner: seq<nat>, owner': seq<nat>, head: nat, l: seq<nat>, p: nat)
    requires ListOf(xlink, owner, head, l, p) && |xlink'| >= |xlink| && owner <= owner'
    requires forall x: nat :: x < |xlink| && x < |owner| && owner[x] == p ==> xlink'[x] == xlink[x]
    ensures ListOf(xlink', owner', head, l, p)
  {
    ListFrame(xlink, xlink', head, l);
  }

  /** The list from its entry number `k` on. */
  lemma {:induction false} ListTail(xlink: seq<nat>, head: nat, l: seq<nat>, k: nat)
    requires IsList(xlink, head, l) && k <= |l|
    ensures k < |l| ==> 0 < l[k] < |xlink| && IsList(xlink, l[k], l[k..])
    ensures k > 0 ==> 0 < l[k - 1] < |xlink| && xlink[l[k - 1]] == if k < |l| then l[k] else 0
    ensures k == 0 ==> head == if l == [] then 0 else l[0]
    decreases k
  {
    if k == 0 {
      assert l[0..] == l;
    } else {
      ListTail(xlink, xlink[head], l[1..], k - 1);
      assert l[1..][k - 1..] == l[k..];
    }
  }

  /** Linking `n` in after the first `k` entries. */
  lemma {:induction false} ListInserted(xlink: seq<nat>, xlink': seq<nat>, head: nat, l: seq<nat>, k: nat, n: nat)
    requires IsList(xlink, head, l) && k <= |l| && n == |xlink| && |xlink'| == n + 1 && n > 0
    requires forall i, j :: 0 <= i < j < |l| ==> l[i] != l[j]
    requires forall i :: 0 <= i < |l| ==> l[i] < n && (i != k - 1 ==> xlink'[l[i]] == xlink[l[i]])
    requires k > 0 ==> l[k - 1] < n && xlink'[l[k - 1]] == n
    requires xlink'[n] == if k < |l| then l[k] else 0
    ensures IsList(xlink', if k == 0 then n else head, l[..k] + [n] + l[k..])
    decreases k
  {
    var r := l[..k] + [n] + l[k..];
    if k == 0 {
      ListFrame(xlink, xlink', head, l);
      assert r[1..] == l;
    } else {
      assert r[1..] == l[1..][..k - 1] + [n] + l[1..][k - 1..];
      assert forall i :: 0 <= i < |l[1..]| ==> l[1..][i] == l[i + 1];
      ListInserted(xlink, xlink', xlink[head], l[1..], k - 1, n);
    }
  }

  class XrefMemory {
    /** `xmem`: entry 0 is the end of all lists. */
    var num: seq<nat>
    var xlink: seq<nat>
    /** The list of each name. */
    var xref: seq<nat>
    var sectionCount: nat
    var xrefSwitch: nat
    var sectionXrefSwitch: nat

    ghost var lists: seq<seq<nat>>
    ghost var owner: seq<nat>

    ghost predicate Valid()
      reads this`num, this`xlink, this`xref, this`lists, this`owner
    {
      |num| == |xlink| && AllLists(xlink, owner, xref, lists) && num[0] == 0
    }

    /** The cross-references of name `p`. */
    ghost function Refs(p: nat): Xrefs
      requires Valid() && p < |xref|
      reads this`num, this`xlink, this`xref, this`lists, this`owner
    {
      assert ListOf(xlink, owner, xref[p], lists[p], p);
      assert InRange(num, lists[p]);
      Numbers(num, lists[p])
    }

    constructor (names: nat)
      ensures Valid() && |xref| == names && sectionCount == 0 && xrefSwitch == 0 && sectionXrefSwitch == 0
      ensures forall p: nat :: p < names ==> Refs(p) == []
    {
      num, xlink, xref := [0], [0], seq(names, _ => 0);
      sectionCount, xrefSwitch, sectionXrefSwitch := 0, 0, 0;
      lists, owner := seq(names, _ => []), [0];
    }

    /** The first number of the list, 0 if it is empty. */
    lemma Head(p: nat)
      requires Valid() && p < |xref|
      ensures xref[p] < |num| && |num| == |xlink| && |lists[p]| == |Refs(p)|
      ensures Refs(p) == [] ==> xref[p] == 0
      ensures Refs(p) != [] ==> xref[p] > 0 && num[xref[p]] == Refs(p)[0] && lists[p][0] == xref[p]
    {
      assert ListOf(xlink, owner, xref[p], lists[p], p);
    }

    /** `append_xref` with a link to the first entry of the list, which it precedes. */
    method PushXref(p: nat, m: nat)
      requires Valid() && p < |xref|
      modifies this`num, this`xlink, this`xref, this`lists, this`owner
      ensures Valid() && |xref| == |old(xref)| && Refs(p) == [m] + old(Refs(p))
              && lists[p] == [|old(num)|] + old(lists[p])
      ensures forall q: nat :: q < |xref| && q != p ==> Refs(q) == old(Refs(q))
    {
      hide AllLists, ListOf;
      ghost var was, l := num, lists;
      Bounds(p);
      InsertOk(num, xlink, xref, lists, owner, p, 0, m);
      NumbersGrow(num, m, l[p], 0);
      num := num + [m];
      xlink := xlink + [xref[p]];
      xref := xref[p := |num| - 1];
      lists := lists[p := l[p][..0] + [|was|] + l[p][0..]];
      owner := owner + [p];
      assert Numbers(was, l[p])[..0] + [m] + Numbers(was, l[p])[0..] == [m] + Numbers(was, l[p]);
      OthersSame(was, num, old(xlink), old(owner), old(xref), l, p);
    }

    /** The entries of the lists are in range. */
    lemma Bounds(p: nat)
      requires Valid() && p < |xref|
      ensures |xref| == |lists| && xref[p] < |num| && |num| == |xlink| == |owner|
      ensures forall q: nat :: q < |xref| ==> InRange(num, lists[q])
    {
      assert ListOf(xlink, owner, xref[p], lists[p], p);
      forall q: nat | q < |xref|
        ensures InRange(num, lists[q])
      {
        assert ListOf(xlink, owner, xref[q], lists[q], q);
      }
    }

    /** Changing the number of one entry. */
    method ChangeXref(p: nat, ghost i: nat, x: nat, m: nat)
      requires Valid() && p < |xref| && i < |lists[p]| && x == lists[p][i]
      modifies this`num
      ensures Valid() && Refs(p) == old(Refs(p))[i := m]
      ensures forall q: nat :: q < |xref| && q != p ==> Refs(q) == old(Refs(q))
    {
      assert ListOf(xlink, owner, xref[p], lists[p], p);
      ListDistinct(xlink, xref[p], lists[p]);
      num := num[x := m];
      forall q: nat | q < |xref| && q != p
        ensures Refs(q) == old(Refs(q))
      {
        assert ListOf(xlink, owner, xref[q], lists[q], q);
      }
    }

    /** `new_xref`; `indexed` is not set for names that are in the index only where they are underlined. */
    method NewXref(p: nat, indexed: bool, noXref: bool)
      requires Valid() && p < |xref|
      modifies this
      ensures Valid() && |xref| == |old(xref)| && sectionCount == old(sectionCount)
      ensures Refs(p) == if noXref || (!indexed && old(xrefSwitch) == 0) then old(Refs(p))
                         else WithXref(old(Refs(p)), sectionCount + old(xrefSwitch))
      ensures forall q: nat :: q < |xref| && q != p ==> Refs(q) == old(Refs(q))
      ensures xrefSwitch == if noXref then old(xrefSwitch) else 0
    {
      hide AllLists, ListOf, IsList, Refs;
      if noXref || (!indexed && xrefSwitch == 0) {
        return;
      }
      Head(p);
      var m := sectionCount + xrefSwitch;
      xrefSwitch := 0;
      var q := xref[p];
      if q != 0 {
        var n := num[q];
        if n == m || n == m + DEF_FLAG {
          return;
        } else if m == n + DEF_FLAG {
          ChangeXref(p, 0, q, m);
          return;
        }
      }
      PushXref(p, m);
    }

    /** `set_file_flag`. */
    method SetFileFlag(p: nat)
      requires Valid() && p < |xref|
      modifies this`num, this`xlink, this`xref, this`lists, this`owner
      ensures Valid() && |xref| == |old(xref)| && Refs(p) == WithFileFlag(old(Refs(p)))
      ensures forall q: nat :: q < |xref| && q != p ==> Refs(q) == old(Refs(q))
    {
      Head(p);
      if num[xref[p]] == FILE_FLAG {
        return;
      }
      PushXref(p, FILE_FLAG);
    }

    /** `new_section_xref`: past the references with greater numbers than the flag. */
    method NewSectionXref(p: nat)
      requires Valid() && p < |xref| && 0 < sectionCount
      modifies this
      ensures Valid() && |xref| == |old(xref)| && sectionCount == old(sectionCount) && xrefSwitch == old(xrefSwitch)
      ensures Refs(p) == WithSectionXref(old(Refs(p)), sectionCount, old(sectionXrefSwitch))
      ensures forall q: nat :: q < |xref| && q != p ==> Refs(q) == old(Refs(q))
      ensures sectionXrefSwitch == if Refs(p) == old(Refs(p)) then old(sectionXrefSwitch) else 0
    {
      hide AllLists, ListOf, SectionPlace, IsList, Refs;
      ghost var v, k := Refs(p), 0;
      Bounds(p);
      PlaceStart(v, sectionXrefSwitch);
      var q, r := xref[p], 0;
      if q > 0 {
        At(p, 0);
        while num[q] > sectionXrefSwitch
          invariant k <= |v| && q < |num| && r < |num| && q == (if k < |v| then lists[p][k] else 0)
          invariant r == if k == 0 then 0 else lists[p][k - 1]
          invariant SectionPlace(v, sectionXrefSwitch) == k + SectionPlace(v[k..], sectionXrefSwitch)
          decreases |v| - k
          modifies {}
        {
          At(p, k);
          PlaceStep(v, k, sectionXrefSwitch);
          r := q;
          q := xlink[q];
          k := k + 1;
          At(p, k);
        }
      }
      At(p, k);
      PlaceEnd(v, k, sectionXrefSwitch);
      if num[r] == sectionCount + sectionXrefSwitch {
        return;
      }
      LinkXref(p, k, q, r, sectionCount + sectionXrefSwitch);
      sectionXrefSwitch := 0;
      assert |Refs(p)| == |v| + 1;
    }

    /** A new entry between `r` and `q`, or before `q` if `r` is 0. */
    method LinkXref(p: nat, ghost k: nat, q: nat, r: nat, m: nat)
      requires Valid() && p < |xref| && k <= |Refs(p)| == |lists[p]| && q == (if k < |Refs(p)| then lists[p][k] else 0)
      requires r == (if k == 0 then 0 else lists[p][k - 1])
      modifies this`num, this`xlink, this`xref, this`lists, this`owner
      ensures Valid() && |xref| == |old(xref)| && Refs(p) == old(Refs(p))[..k] + [m] + old(Refs(p))[k..]
      ensures forall q: nat :: q < |xref| && q != p ==> Refs(q) == old(Refs(q))
    {
      hide AllLists, ListOf, IsList;
      ghost var l, was := lists, num;
      Bounds(p);
      At(p, k);
      InsertOk(num, xlink, xref, lists, owner, p, k, m);
      NumbersGrow(num, m, l[p], k);
      num := num + [m];
      xlink := xlink + [q];
      if r == 0 {
        xref := xref[p := |num| - 1];
      } else {
        xlink := xlink[r := |num| - 1];
      }
      lists := lists[p := l[p][..k] + [|was|] + l[p][k..]];
      owner := owner + [p];
      OthersSame(was, num, old(xlink), old(owner), old(xref), l, p);
    }

    /** The entry number `k` of a list. */
    lemma At(p: nat, k: nat)
      requires Valid() && p < |xref| && k <= |Refs(p)|
      ensures |lists[p]| == |Refs(p)| && num[0] == 0 < |num| == |xlink|
      ensures k < |Refs(p)| ==> 0 < lists[p][k] < |num| && num[lists[p][k]] == Refs(p)[k]
      ensures k > 0 ==> 0 < lists[p][k - 1] < |num| && xlink[lists[p][k - 1]] == if k < |Refs(p)| then lists[p][k]
              else 0
      ensures k > 0 ==> num[lists[p][k - 1]] == Refs(p)[k - 1]
      ensures xref[p] == if Refs(p) == [] then 0 else lists[p][0]
    {
      assert ListOf(xlink, owner, xref[p], lists[p], p);
      ListTail(xlink, xref[p], lists[p], k);
      ListTail(xlink, xref[p], lists[p], 0);
    }

    /** No two entries are linked to the same one. */
    lemma Different(p: nat, i: nat, k: nat)
      requires Valid() && p < |xref| && i <= k < |lists[p]|
      ensures lists[p][i] < |xlink|
      ensures xlink[lists[p][i]] == (if k + 1 < |lists[p]| then lists[p][k + 1] else 0) <==> i == k
    {
      assert ListOf(xlink, owner, xref[p], lists[p], p);
      ListTail(xlink, xref[p], lists[p], i + 1);
      ListDistinct(xlink, xref[p], lists[p]);
    }

    /** `underline_xref`: the definition of a name in the current section; unless it replaces a use, an entry is put
        in front and numbers are moved up to its place. */
    method UnderlineXref(p: nat, noXref: bool)
      requires Valid() && p < |xref|
      modifies this`num, this`xlink, this`xref, this`lists, this`owner
      ensures Valid() && |xref| == |old(xref)|
      ensures Refs(p) == if noXref then old(Refs(p)) else Underlined(old(Refs(p)), sectionCount + xrefSwitch)
      ensures forall q: nat :: q < |xref| && q != p ==> Refs(q) == old(Refs(q))
    {
      hide AllLists, ListOf, UnderlinePlace, Refs, IsList;
      if noXref {
        return;
      }
      ghost var v, k := Refs(p), 0;
      var m := sectionCount + xrefSwitch;
      Bounds(p);
      UnderlineStart(v, m);
      var q := xref[p];
      At(p, 0);
      while q != 0
        invariant k <= |v| && q < |num| && q == (if k < |v| then lists[p][k] else 0)
        invariant UnderlinePlace(v, m) == k + UnderlinePlace(v[k..], m)
        decreases |v| - k
        modifies {}
      {
        At(p, k);
        UnderlineHere(v, k, m);
        var n := num[q];
        if n == m {
          return;
        } else if m == n + DEF_FLAG {
          break;
        } else if n >= DEF_FLAG && n < m {
          break;
        }
        q := xlink[q];
        k := k + 1;
        At(p, k);
      }
      At(p, k);
      UnderlineHere(v, k, m);
      if q != 0 && m == num[q] + DEF_FLAG {
        ChangeXref(p, k, q, m);
        return;
      }
      InsertNumber(p, k, q, m);
    }

    /** A new entry is put in front, and the numbers before `q` are moved up to make place for `m` there. */
    method InsertNumber(p: nat, ghost k: nat, q: nat, m: nat)
      requires Valid() && p < |xref| && k <= |Refs(p)| == |lists[p]| && q == (if k < |Refs(p)| then lists[p][k] else 0)
      modifies this`num, this`xlink, this`xref, this`lists, this`owner
      ensures Valid() && |xref| == |old(xref)| && Refs(p) == old(Refs(p))[..k] + [m] + old(Refs(p))[k..]
      ensures forall q: nat :: q < |xref| && q != p ==> Refs(q) == old(Refs(q))
    {
      hide AllLists, ListOf, Refs, IsList;
      ghost var v := Refs(p);
      At(p, k);
      Bounds(p);
      PushXref(p, 0);
      Bounds(p);
      assert lists[p][k + 1..] == old(lists[p][k..]);
      At(p, 0);
      At(p, k + 1);
      ghost var e := lists[p];
      Different(p, 0, k);
      var r := xref[p];
      ghost var i := 0;
      while xlink[r] != q
        invariant Valid() && |xref| == |old(xref)| && lists[p] == e && i <= k < |e| && r == e[i] && r < |xlink|
        invariant |Refs(p)| == |v| + 1 && (i < k ==> xlink[r] != q) && (i == k ==> xlink[r] == q)
        invariant (forall j :: 0 <= j < i ==> Refs(p)[j] == v[j]) && forall j :: i <= j < |v| ==> Refs(p)[j + 1] == v[j]
        invariant forall q: nat :: q < |xref| && q != p ==> Refs(q) == old(Refs(q))
        decreases k - i
        modifies this`num
      {
        At(p, i + 1);
        At(p, i + 2);
        ChangeXref(p, i, r, num[xlink[r]]);
        r := xlink[r];
        i := i + 1;
        Different(p, i, k);
      }
      ChangeXref(p, i, r, m);
      InsertedIs(Refs(p), v, k, m);
    }

    /** The list of a name is reversed in place. Only its first entry stays in the list of the name. */
    method ReverseXrefs(p: nat) returns (cur: nat)
      requires Valid() && p < |xref|
      modifies this`xlink, this`lists
      ensures Valid() && |xref| == |old(xref)| && num == old(num) && |xlink| == |old(xlink)|
      ensures IsList(xlink, cur, Reversed(old(lists[p]))) && InRange(num, old(lists[p]))
      ensures forall q: nat :: q < |xref| && q != p ==> Refs(q) == old(Refs(q))
    {
      hide AllLists, IsList;
      Bounds(p);
      ghost var l := lists[p];
      RunStart(xlink, owner, xref, lists, p);
      var entry := xref[p];
      cur := 0;
      ghost var i := 0;
      while entry != 0
        invariant i <= |l| && |xlink| == |old(xlink)| && lists == old(lists)
        invariant IsList(xlink, cur, Reversed(l[..i])) && IsList(xlink, entry, l[i..]) && (entry == 0 <==> i == |l|)
        invariant forall x: nat :: x < |xlink| && owner[x] != p ==> xlink[x] == old(xlink)[x]
        invariant i > 0 ==> xlink[l[0]] == 0
        decreases |l| - i
        modifies this`xlink
      {
        ReverseStep(xlink, entry, cur, l, i);
        var next := xlink[entry];
        xlink := xlink[entry := cur];
        cur := entry;
        entry := next;
        i := i + 1;
      }
      assert l[..i] == l;
      lists := lists[p := l[..if l == [] then 0 else 1]];
      RunEnd(old(xlink), xlink, owner, xref, old(lists), p);
    }

    /** The references of a name are printed, from the first section to the last. */
    method PrintXrefs(p: nat) returns (printed: seq<nat>)
      requires Valid() && p < |xref| && Refs(p) != []
      modifies this`xlink, this`lists
      ensures Valid() && |xref| == |old(xref)| && printed == Reversed(old(Refs(p)))
      ensures forall q: nat :: q < |xref| && q != p ==> Refs(q) == old(Refs(q))
    {
      hide AllLists;
      Bounds(p);
      ghost var l, v := lists[p], Refs(p);
      var cur := ReverseXrefs(p);
      ghost var r := Reversed(l);
      ghost var k := 0;
      printed := [];
      ReversedNumbers(num, l);
      assert r[0..] == r;
      while cur != 0
        invariant k <= |r| && IsList(xlink, cur, r[k..])
        invariant |printed| == k && forall j :: 0 <= j < k ==> printed[j] == num[r[j]]
        decreases |r| - k
        modifies {}
      {
        assert r[k..][1..] == r[k + 1..];
        printed := printed + [num[cur]];
        cur := xlink[cur];
        k := k + 1;
      }
    }
  }

  lemma {:induction false} ReversedSnoc(l: seq<nat>, i: nat)
    requires i < |l|
    ensures Reversed(l[..i + 1]) == [l[i]] + Reversed(l[..i])
  {
    if i == 0 {
      assert l[..1] == [l[0]] && l[..0] == [];
      assert Reversed([l[0]]) == [l[0]];
    } else {
      ReversedSnoc(l[1..], i - 1);
      assert l[..i + 1][1..] == l[1..][..i] && l[..i][1..] == l[1..][..i - 1];
      assert l[..i + 1][0] == l[0];
    }
  }

  lemma {:induction false} ReversedNumbers(num: seq<nat>, l: seq<nat>)
    requires InRange(num, l)
    ensures InRange(num, Reversed(l)) && Numbers(num, Reversed(l)) == Reversed(Numbers(num, l))
  {
    forall i | 0 <= i < |l|
      ensures Reversed(l)[i] < |num| && num[Reversed(l)[i]] == Reversed(Numbers(num, l))[i]
    {
      ReversedAt(l, i);
      ReversedAt(Numbers(num, l), i);
    }
  }

  /** Before the reversal. */
  lemma RunStart(xlink: seq<nat>, owner: seq<nat>, xref: seq<nat>, lists: seq<seq<nat>>, p: nat)
    requires AllLists(xlink, owner, xref, lists) && p < |xref|
    ensures var l := lists[p];
      && (forall i, j :: 0 <= i < j < |l| ==> l[i] != l[j])
      && (forall i :: 0 <= i < |l| ==> 0 < l[i] < |xlink| && l[i] < |owner| && owner[l[i]] == p)
      && IsList(xlink, 0, Reversed(l[..0])) && IsList(xlink, xref[p], l[0..]) && (xref[p] == 0 <==> l == [])
  {
    assert ListOf(xlink, owner, xref[p], lists[p], p);
    ListDistinct(xlink, xref[p], lists[p]);
    assert lists[p][0..] == lists[p];
  }

  lemma ReverseStep(xlink: seq<nat>, entry: nat, cur: nat, l: seq<nat>, i: nat)
    requires i < |l| && IsList(xlink, cur, Reversed(l[..i])) && IsList(xlink, entry, l[i..])
    requires forall i, j :: 0 <= i < j < |l| ==> l[i] != l[j]
    ensures entry == l[i] && 0 < entry < |xlink|
    ensures var xlink' := xlink[entry := cur];
      && IsList(xlink', entry, Reversed(l[..i + 1])) && IsList(xlink', xlink[entry], l[i + 1..])
      && (xlink[entry] == 0 <==> i + 1 == |l|)
    ensures i == 0 ==> cur == 0
  {
    var xlink' := xlink[entry := cur];
    assert l[i..][1..] == l[i + 1..];
    forall x: nat | x in Reversed(l[..i])
      ensures x != l[i]
    {
      var j :| 0 <= j < |Reversed(l[..i])| && Reversed(l[..i])[j] == x;
      ReversedAt(l[..i], j);
      assert x == l[i - 1 - j];
    }
    ListFrame(xlink, xlink', cur, Reversed(l[..i]));
    ListFrame(xlink, xlink', xlink[entry], l[i + 1..]);
    ReversedSnoc(l, i);
    assert Reversed(l[..i + 1])[1..] == Reversed(l[..i]);
  }

  /** After it. */
  lemma RunEnd(xlink: seq<nat>, xlink': seq<nat>, owner: seq<nat>, xref: seq<nat>, lists: seq<seq<nat>>, p: nat)
    requires AllLists(xlink, owner, xref, lists) && p < |xref| && |xlink'| == |xlink|
    requires forall x: nat :: x < |xlink| && owner[x] != p ==> xlink'[x] == xlink[x]
    requires lists[p] != [] ==> lists[p][0] < |xlink'| && xlink'[lists[p][0]] == 0
    ensures AllLists(xlink', owner, xref, lists[p := lists[p][..if lists[p] == [] then 0 else 1]])
  {
    var l := lists[p];
    var first := l[..if l == [] then 0 else 1];
    forall q: nat | q < |xref|
      ensures ListOf(xlink', owner, xref[q], lists[p := first][q], q)
    {
      assert ListOf(xlink, owner, xref[q], lists[q], q);
      if q != p {
        ListFrame(xlink, xlink', xref[q], lists[q]);
      } else if l != [] {
        assert first == [l[0]] && first[1..] == [];
        assert IsList(xlink', xlink'[l[0]], first[1..]);
        assert l[0] == xref[p] && IsList(xlink', xref[p], first);
      }
    }
  }

  predicate InRange(num: seq<nat>, l: seq<nat>) {
    forall i :: 0 <= i < |l| ==> l[i] < |num|
  }

  lemma NumbersGrow(num: seq<nat>, m: nat, l: seq<nat>, k: nat)
    requires InRange(num, l) && k <= |l|
    ensures InRange(num + [m], l[..k] + [|num|] + l[k..])
    ensures Numbers(num + [m], l[..k] + [|num|] + l[k..]) == Numbers(num, l)[..k] + [m] + Numbers(num, l)[k..]
  {
  }

  /** The other names keep their references. */
  lemma OthersSame(num: seq<nat>, num': seq<nat>, xlink: seq<nat>, owner: seq<nat>, xref: seq<nat>,
                   lists: seq<seq<nat>>, p: nat)
    requires AllLists(xlink, owner, xref, lists) && |num| == |xlink| <= |num'|
    requires forall x: nat :: x < |num| && owner[x] != p ==> num'[x] == num[x]
    ensures forall q: nat :: q < |xref| && q != p ==>
              InRange(num, lists[q]) && InRange(num', lists[q]) && Numbers(num', lists[q]) == Numbers(num, lists[q])
  {
    forall q: nat | q < |xref| && q != p
      ensures InRange(num, lists[q]) && InRange(num', lists[q]) && Numbers(num', lists[q]) == Numbers(num, lists[q])
    {
      assert ListOf(xlink, owner, xref[q], lists[q], q);
    }
  }

  /** A new entry after the first `k` of name `p`. */
  lemma InsertOk(num: seq<nat>, xlink: seq<nat>, xref: seq<nat>, lists: seq<seq<nat>>, owner: seq<nat>, p: nat, k: nat,
                 m: nat)
    requires |num| == |xlink| && AllLists(xlink, owner, xref, lists) && p < |xref| && k <= |lists[p]|
    ensures var n := |num|; var l := lists[p];
      var next := if k < |l| then l[k] else 0;
      && (k > 0 ==> l[k - 1] < n)
      && var xlink' := if k == 0 then xlink + [next] else (xlink + [next])[l[k - 1] := n];
         && AllLists(xlink', owner + [p], if k == 0 then xref[p := n] else xref, lists[p := l[..k] + [n] + l[k..]])
         && next == if k == 0 then xref[p] else xlink[l[k - 1]]
  {
    var n := |num|;
    var l := lists[p];
    assert ListOf(xlink, owner, xref[p], l, p);
    ListTail(xlink, xref[p], l, k);
    ListDistinct(xlink, xref[p], l);
    var next := if k < |l| then l[k] else 0;
    var xlink' := if k == 0 then xlink + [next] else (xlink + [next])[l[k - 1] := n];
    var xref' := if k == 0 then xref[p := n] else xref;
    ListInserted(xlink, xlink', xref[p], l, k, n);
    forall q: nat | q < |xref|
      ensures ListOf(xlink', owner + [p], xref'[q], lists[p := l[..k] + [n] + l[k..]][q], q)
    {
      assert ListOf(xlink, owner, xref[q], lists[q], q);
      if q != p {
        ListKept(xlink, xlink', owner, owner + [p], xref[q], lists[q], q);
      }
    }
  }

  lemma InsertedIs(u: Xrefs, v: Xrefs, k: nat, m: nat)
    requires k <= |v| && |u| == |v| + 1 && u[k] == m
    requires (forall j :: 0 <= j < k ==> u[j] == v[j]) && forall j :: k <= j < |v| ==> u[j + 1] == v[j]
    ensures u == v[..k] + [m] + v[k..]
  {
    var w := v[..k] + [m] + v[k..];
    forall j | 0 <= j < |u|
      ensures u[j] == w[j]
    {
      if j > k {
        assert w[j] == v[j - 1];
      }
    }
  }

  lemma PlaceStart(v: Xrefs, flag: nat)
    ensures v[0..] == v
  {
  }

  lemma PlaceStep(v: Xrefs, k: nat, flag: nat)
    requires k < |v| && v[k] > flag
    ensures SectionPlace(v[k..], flag) == 1 + SectionPlace(v[k + 1..], flag)
  {
    assert v[k..][1..] == v[k + 1..];
  }

  lemma PlaceEnd(v: Xrefs, k: nat, flag: nat)
    requires k <= |v| && (k < |v| ==> v[k] <= flag)
    ensures SectionPlace(v[k..], flag) == 0
  {
  }

  lemma UnderlineStart(v: Xrefs, m: nat)
    ensures v[0..] == v
  {
  }

  lemma UnderlineHere(v: Xrefs, k: nat, m: nat)
    requires k <= |v|
    ensures UnderlinePlace(v[k..], m) ==
            if k == |v| || v[k] == m || m == v[k] + DEF_FLAG || (v[k] >= DEF_FLAG && v[k] < m) then 0
            else 1 + UnderlinePlace(v[k + 1..], m)
  {
    if k < |v| {
      assert v[k..][1..] == v[k + 1..];
    }
  }
}

/** Section names with abbreviations, as values: what a lookup does to the set of known sections, and what stays true
    over any run of lookups. */
module Sections {
  import opened Bytes

  /** The results of `web_strcmp`, and the additional one of `section_name_cmp`. */
  datatype Order = Less | Equal | Greater | Prefix | Extension | BadExtension

  /** The value of a byte as a C `char`. */
  function Signed(b: Byte): int {
    if b < 128 then b as int else b as int - 256
  }

  /** `Prefix` and `Extension` say what `j` is of `k`. */
  function Compare(j: Name, k: Name): (c: Order)
    ensures c != BadExtension
  {
    if j == [] then if k == [] then Equal else Prefix
    else if k == [] then Extension
    else if j[0] == k[0] then Compare(j[1..], k[1..])
    else if Signed(j[0]) < Signed(k[0]) then Less
    else Greater
  }

  /** One of two names begins with the other. */
  predicate Comparable(j: Name, k: Name) {
    j <= k || k <= j
  }

  lemma {:induction false} CompareIs(j: Name, k: Name)
    ensures Compare(j, k).Equal? <==> j == k
    ensures Compare(j, k).Prefix? <==> j < k
    ensures Compare(j, k).Extension? <==> k < j
    ensures Compare(j, k).Less? || Compare(j, k).Greater? <==> !Comparable(j, k)
  {
    if j != [] && k != [] {
      assert j == [j[0]] + j[1..] && k == [k[0]] + k[1..];
      if j[0] == k[0] {
        CompareIs(j[1..], k[1..]);
      }
    }
  }

  /** Of names that are not comparable, the one with the smaller character is less, at the first place where they
      differ; characters above 0177 are negative. */
  lemma {:induction false} CompareDiffers(j: Name, k: Name)
    ensures Compare(j, k).Less? <==>
            exists i: nat :: i < |j| && i < |k| && j[..i] == k[..i] && Signed(j[i]) < Signed(k[i])
    ensures Compare(j, k).Greater? <==>
            exists i: nat :: i < |j| && i < |k| && j[..i] == k[..i] && Signed(j[i]) > Signed(k[i])
  {
    if j != [] && k != [] {
      if j[0] == k[0] {
        CompareDiffers(j[1..], k[1..]);
        forall i: nat | 0 < i < |j| && i < |k|
          ensures j[..i] == k[..i] <==> j[1..][..i - 1] == k[1..][..i - 1]
        {
          assert j[..i] == [j[0]] + j[1..][..i - 1] && k[..i] == [k[0]] + k[1..][..i - 1];
          assert j[..i][1..] == j[1..][..i - 1] && k[..i][1..] == k[1..][..i - 1];
        }
        forall i: nat | i < |j[1..]| && i < |k[1..]| && j[1..][..i] == k[1..][..i]
          ensures j[..i + 1] == k[..i + 1] && j[i + 1] == j[1..][i] && k[i + 1] == k[1..][i]
        {
        }
      } else {
        assert j[..0] == k[..0];
        assert forall i: nat :: 0 < i < |j| && i < |k| ==> j[..i][0] != k[..i][0];
      }
    }
  }

  lemma {:induction false} CompareFlips(j: Name, k: Name)
    ensures Compare(j, k).Less? <==> Compare(k, j).Greater?
  {
    if j != [] && k != [] && j[0] == k[0] {
      CompareFlips(j[1..], k[1..]);
    }
  }

  /** The order of names that are not comparable is transitive, also through a comparable pair on the right. */
  lemma {:induction false} LessTrans(a: Name, b: Name, c: Name)
    requires Compare(a, b).Less? && (Compare(b, c).Less? || b <= c)
    ensures Compare(a, c).Less?
  {
    if b[0] == c[0] {
      assert b <= c ==> b[1..] <= c[1..];
      if a[0] == b[0] {
        LessTrans(a[1..], b[1..], c[1..]);
      }
    }
  }

  /** `web_strcmp`: advance while the characters agree. */
  method WebStrcmp(j: Name, k: Name) returns (c: Order)
    ensures c == Compare(j, k)
  {
    var i := 0;
    while i < |j| && i < |k| && j[i] == k[i]
      invariant i <= |j| && i <= |k|
      invariant Compare(j, k) == Compare(j[i..], k[i..])
    {
      i := i + 1;
    }
    if i == |k| {
      c := if i == |j| then Equal else Extension;
    } else if i == |j| {
      c := Prefix;
    } else {
      c := if Signed(j[i]) < Signed(k[i]) then Less else Greater;
    }
  }

  // ---------- the set of sections ----------

  /** A section: the key under which it is found, its name as far as it is known, and whether that is all of it. */
  datatype Section = Section(key: Name, text: Name, complete: bool)

  type Directory = map<nat, Section>

  function Matches(d: Directory, n: Name): set<nat> {
    set id | id in d && Comparable(n, d[id].key)
  }

  /** What `section_name_cmp` finds out about a sought name and a section. */
  function NameCompare(n: Name, s: Section): Order {
    if n == s.text then if s.complete then Equal else Extension
    else if n < s.text then Prefix
    else if s.text < n then if s.complete then BadExtension else Extension
    else Compare(n, s.text)
  }

  /** The result of a lookup: the sections after it, the section found (0 if there is no telling which), and whether no
      error message was given. */
  datatype Found = Found(sections: Directory, id: nat, ok: bool)

  /** A name that is looked up when `r` is the only section whose key it matches. */
  function Resolve(d: Directory, n: Name, pref: bool, r: nat): Found
    requires r in d
  {
    match NameCompare(n, d[r])
    case Prefix =>
      if !pref then Found(d, r, false)
      else Found(d[r := d[r].(key := if |n| < |d[r].key| then n else d[r].key)], r, true)
    case Equal => Found(d, r, true)
    case Extension => Found(d[r := d[r].(text := n, complete := !pref)], r, true)
    case _ => Found(d, r, false)
  }

  ghost function Member(m: set<nat>): (r: nat)
    requires m != {}
    ensures r in m
  {
    var r :| r in m; r
  }

  /** The lookup of `n`, an abbreviation if `pref`; a new section gets the number `number`. */
  ghost function Lookup(d: Directory, n: Name, pref: bool, number: nat): Found {
    var m := Matches(d, n);
    if m == {} then Found(d[number := Section(n, n, !pref)], number, true)
    else
      var r := Member(m);
      if m == {r} then Resolve(d, n, pref, r) else Found(d, 0, false)
  }

  /** Keys are abbreviations of names, and no key begins with another. */
  predicate Inv(d: Directory) {
    && 0 !in d
    && (forall id :: id in d ==> d[id].key <= d[id].text)
    && (forall i, j :: i in d && j in d && i != j ==> !Comparable(d[i].key, d[j].key))
  }

  /** The name `n` has been used for section `r`: it lies between the section's key and its full name. */
  predicate Settled(d: Directory, n: Name, r: nat) {
    r in d && d[r].key <= n <= d[r].text
  }

  lemma PrefixesComparable(a: Name, b: Name, n: Name)
    requires a <= n && b <= n
    ensures Comparable(a, b)
  {
    if |a| <= |b| {
      assert a == n[..|a|] == b[..|a|];
    } else {
      assert b == n[..|b|] == a[..|b|];
    }
  }

  lemma ComparableShort(n: Name, a: Name, k: Name)
    requires a <= n && Comparable(n, k)
    ensures Comparable(a, k)
  {
    if n <= k {
      assert a <= k;
    } else {
      PrefixesComparable(a, k, n);
    }
  }

  lemma PrefixTrans(a: Name, b: Name, c: Name)
    requires a <= b && b <= c
    ensures a <= c
  {
    assert a == b[..|a|] == c[..|a|];
  }

  /** What `Resolve` does to the section it is about. */
  lemma ResolveOne(d: Directory, n: Name, pref: bool, r: nat)
    requires r in d && d[r].key <= d[r].text && Comparable(n, d[r].key)
    ensures var f := Resolve(d, n, pref, r);
      && f.id == r && f.sections == d[r := f.sections[r]]
      && f.sections[r].key <= d[r].key && d[r].text <= f.sections[r].text
      && f.sections[r].key <= f.sections[r].text
      && (f.ok ==> f.sections[r].key <= n <= f.sections[r].text)
  {
    CompareIs(n, d[r].text);
    var f := Resolve(d, n, pref, r);
    if NameCompare(n, d[r]).Extension? {
      PrefixTrans(d[r].key, d[r].text, n);
    } else if NameCompare(n, d[r]).Prefix? && f.ok {
      PrefixTrans(f.sections[r].key, d[r].key, d[r].text);
    }
  }

  /** Every lookup keeps keys prefix-free. */
  lemma LookupKeepsInv(d: Directory, n: Name, pref: bool, number: nat)
    requires Inv(d) && number != 0 && number !in d
    ensures Inv(Lookup(d, n, pref, number).sections)
  {
    var m := Matches(d, n);
    var d' := Lookup(d, n, pref, number).sections;
    if m == {} {
      forall id | id in d
        ensures !Comparable(n, d[id].key)
      {
        assert id !in m;
      }
    } else {
      var r := Member(m);
      assert Comparable(n, d[r].key);
      if m == {r} {
        ResolveOne(d, n, pref, r);
        forall id | id in d && id != r
          ensures !Comparable(d'[r].key, d[id].key)
        {
          assert id !in m;
          assert d'[r].key == n || d'[r].key == d[r].key;
        }
      }
    }
  }

  /** A section may get a shorter key that matches no other, or a longer text. */
  lemma InvUpdate(d: Directory, r: nat, s: Section)
    requires Inv(d) && r in d && s.key <= d[r].key && d[r].text <= s.text
    requires s.key == d[r].key || Matches(d, s.key) == {r}
    ensures Inv(d[r := s])
  {
    PrefixTrans(s.key, d[r].key, d[r].text);
    PrefixTrans(s.key, d[r].text, s.text);
    if s.key != d[r].key {
      forall id | id in d && id != r
        ensures !Comparable(s.key, d[id].key)
      {
        assert id !in Matches(d, s.key);
      }
    }
  }

  /** A name that has been used for a section matches that section and no other. */
  lemma SettledIsUnique(d: Directory, n: Name, r: nat)
    requires Inv(d) && Settled(d, n, r)
    ensures Matches(d, n) == {r}
  {
    forall id | id in d && id != r
      ensures !Comparable(n, d[id].key)
    {
      if Comparable(n, d[id].key) {
        ComparableShort(n, d[r].key, d[id].key);
      }
    }
  }

  /** A lookup without an error message settles the name. */
  lemma LookupSettles(d: Directory, n: Name, pref: bool, number: nat)
    requires Inv(d) && number != 0 && number !in d
    requires Lookup(d, n, pref, number).ok
    ensures Settled(Lookup(d, n, pref, number).sections, n, Lookup(d, n, pref, number).id)
  {
    var m := Matches(d, n);
    if m != {} {
      var r := Member(m);
      assert Comparable(n, d[r].key);
      ResolveOne(d, n, pref, r);
    }
  }

  /** And it stays settled: no later lookup can make it ambiguous or give it to another section. */
  lemma LookupKeepsSettled(d: Directory, n: Name, r: nat, n': Name, pref: bool, number: nat)
    requires Inv(d) && number != 0 && number !in d && Settled(d, n, r)
    ensures Settled(Lookup(d, n', pref, number).sections, n, r)
  {
    var m := Matches(d, n');
    if m != {} {
      var q := Member(m);
      assert Comparable(n', d[q].key);
      ResolveOne(d, n', pref, q);
      if m == {q} && q == r {
        var s := Resolve(d, n', pref, q).sections[r];
        PrefixTrans(s.key, d[r].key, n);
        PrefixTrans(n, d[r].text, s.text);
      }
    }
  }

  /** A section whose whole name is known keeps it. */
  lemma LookupKeepsComplete(d: Directory, r: nat, n': Name, pref: bool, number: nat)
    requires Inv(d) && number != 0 && number !in d && r in d && d[r].complete
    ensures var d' := Lookup(d, n', pref, number).sections; r in d' && d'[r].text == d[r].text && d'[r].complete
  {
    hide Compare;
    CompareIs(n', d[r].text);
  }

  // ---------- runs ----------

  /** A request for a section name. */
  datatype Request = Request(name: Name, pref: bool)

  /** The sections after a run of requests; request number `i` would get section number `number(i)`, which is new. */
  ghost predicate IsRun(states: seq<Directory>, requests: seq<Request>, number: seq<nat>) {
    && |states| == |requests| + 1 && |number| == |requests|
    && forall i :: 0 <= i < |requests| ==>
                     && number[i] != 0 && number[i] !in states[i]
                     && states[i + 1] == Lookup(states[i], requests[i].name, requests[i].pref, number[i]).sections
  }

  lemma {:induction false} RunKeepsInv(states: seq<Directory>, requests: seq<Request>, number: seq<nat>, i: nat)
    requires IsRun(states, requests, number) && Inv(states[0]) && i < |states|
    ensures Inv(states[i])
  {
    if i > 0 {
      RunKeepsInv(states, requests, number, i - 1);
      LookupKeepsInv(states[i - 1], requests[i - 1].name, requests[i - 1].pref, number[i - 1]);
    }
  }

  lemma {:induction false} RunKeepsSettled(states: seq<Directory>, requests: seq<Request>, number: seq<nat>, i: nat,
                                           j: nat,
                                           n: Name, r: nat)
    requires IsRun(states, requests, number) && Inv(states[0]) && i <= j < |states| && Settled(states[i], n, r)
    ensures Settled(states[j], n, r)
    decreases j - i
  {
    if i < j {
      RunKeepsInv(states, requests, number, i);
      LookupKeepsSettled(states[i], n, r, requests[i].name, requests[i].pref, number[i]);
      RunKeepsSettled(states, requests, number, i + 1, j, n, r);
    }
  }

  lemma {:induction false} RunKeepsComplete(states: seq<Directory>, requests: seq<Request>, number: seq<nat>, i: nat,
                                            j: nat,
                                            r: nat)
    requires IsRun(states, requests, number) && Inv(states[0]) && i <= j < |states|
    requires r in states[i] && states[i][r].complete
    ensures r in states[j] && states[j][r].text == states[i][r].text && states[j][r].complete
    decreases j - i
  {
    if i < j {
      RunKeepsInv(states, requests, number, i);
      LookupKeepsComplete(states[i], r, requests[i].name, requests[i].pref, number[i]);
      RunKeepsComplete(states, requests, number, i + 1, j, r);
    }
  }

  /** The law of abbreviations: in any run of requests, a name -- complete or abbreviated -- that was once looked up
      without an error message means the same section ever after, whatever was looked up in between, and is never
      ambiguous. */
  lemma AbbreviationsAreStable(states: seq<Directory>, requests: seq<Request>, number: seq<nat>, i: nat, j: nat,
                               pref: bool, f: nat)
    requires IsRun(states, requests, number) && states[0] == map[] && i < j < |states|
    requires Lookup(states[i], requests[i].name, requests[i].pref, number[i]).ok
    requires f != 0 && f !in states[j]
    ensures Matches(states[j], requests[i].name) ==
            {Lookup(states[i], requests[i].name, requests[i].pref, number[i]).id}
    ensures Lookup(states[j], requests[i].name, pref, f).id
         == Lookup(states[i], requests[i].name, requests[i].pref, number[i]).id
    ensures requests[i].pref && pref ==> Lookup(states[j], requests[i].name, pref, f).ok
  {
    var n := requests[i].name;
    var r := Lookup(states[i], n, requests[i].pref, number[i]).id;
    RunKeepsInv(states, requests, number, i);
    LookupSettles(states[i], n, requests[i].pref, number[i]);
    RunKeepsSettled(states, requests, number, i + 1, j, n, r);
    RunKeepsInv(states, requests, number, j);
    SettledIsUnique(states[j], n, r);
  }

  /** A complete name that was looked up without an error message is found again, as that section and without an error
      message, ever after. */
  lemma CompleteNamesAreStable(states: seq<Directory>, requests: seq<Request>, number: seq<nat>, i: nat, j: nat, f: nat)
    requires IsRun(states, requests, number) && states[0] == map[] && i < j < |states|
    requires Lookup(states[i], requests[i].name, requests[i].pref, number[i]).ok && !requests[i].pref
    requires f != 0 && f !in states[j]
    ensures Lookup(states[j], requests[i].name, false, f)
         == Found(states[j], Lookup(states[i], requests[i].name, false, number[i]).id, true)
  {
    var n := requests[i].name;
    var r := Lookup(states[i], n, false, number[i]).id;
    AbbreviationsAreStable(states, requests, number, i, j, false, f);
    RunKeepsInv(states, requests, number, i);
    LookupCompletes(states[i], n, number[i]);
    RunKeepsComplete(states, requests, number, i + 1, j, r);
  }

  lemma LookupCompletes(d: Directory, n: Name, number: nat)
    requires Inv(d) && number != 0 && number !in d && Lookup(d, n, false, number).ok
    ensures var f := Lookup(d, n, false, number);
      f.id in f.sections && f.sections[f.id].text == n && f.sections[f.id].complete
  {
    var m := Matches(d, n);
    if m != {} {
      CompareIs(n, d[Member(m)].text);
    }
  }

  // ---------- which lookups are accepted ----------

  /** A name fits the only section that it matches: as an abbreviation of what is known of the section's name, as all of
      it, or as a continuation of a name that is not known to be complete. */
  predicate Accepts(s: Section, n: Name, pref: bool) {
    if n < s.text then pref else s.text <= n && (n == s.text || !s.complete)
  }

  /** There is no error message exactly if the name matches no section, or just one, which it fits. */
  lemma AcceptedIff(d: Directory, n: Name, pref: bool, number: nat)
    ensures Lookup(d, n, pref, number).ok <==>
            Matches(d, n) == {} || exists r :: Matches(d, n) == {r} && r in d && Accepts(d[r], n, pref)
  {
    var m := Matches(d, n);
    if m != {} {
      var r := Member(m);
      CompareIs(n, d[r].text);
      assert forall x :: m == {x} ==> x == r by {
        forall x | m == {x}
          ensures x == r
        {
          assert r in {x};
        }
      }
    }
  }

  /** What an accepted name does to the section that it matches: an abbreviation can make the key shorter; the same
      name, or a longer one, becomes what is known of a name that was not complete, and makes it complete unless it is
      an abbreviation itself. Everything else stays, and so does all if the name is not accepted. */
  lemma LookupEffect(d: Directory, n: Name, pref: bool, number: nat, r: nat)
    requires Matches(d, n) == {r} && r in d
    ensures var f, s := Lookup(d, n, pref, number), d[r];
      && f.id == r
      && (if !Accepts(s, n, pref) || (n == s.text && s.complete) then f.sections == d
          else if n < s.text then f.sections == d[r := Section(if |n| < |s.key| then n else s.key, s.text, s.complete)]
          else f.sections == d[r := Section(s.key, n, !pref)])
  {
    assert Member(Matches(d, n)) in {r};
    CompareIs(n, d[r].text);
  }

  /** A name that matches no section is a new one, and a name that matches several leaves everything as it is. */
  lemma LookupOther(d: Directory, n: Name, pref: bool, number: nat)
    ensures Matches(d, n) == {} ==> Lookup(d, n, pref, number) == Found(d[number := Section(n, n, !pref)], number, true)
    ensures Matches(d, n) != {} && (forall r :: Matches(d, n) != {r}) ==>
            Lookup(d, n, pref, number) == Found(d, 0, false)
  {
  }
}

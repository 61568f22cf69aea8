/** The category view of the contact list: one group per fixed category,
    in a fixed order, each holding that category's contacts with primaries
    first. Only the grouping is modelled; the tree widget is not. */
module CategoryView {
  import opened Seqs
  import opened Contacts

  /** The categories shown, in display order. */
  const Categories: seq<string> := ["Family", "Friend", "Emergency", "Travel Related"]

  datatype Group = Group(category: string, members: seq<Contact>)

  const IsPrimary: Contact -> bool := (c: Contact) => c.primary
  const NotPrimary: Contact -> bool := (c: Contact) => !c.primary

  /** The test for a contact of `category`. */
  function InCategory(category: string): Contact -> bool
  {
    (c: Contact) => c.relationship == category
  }

  /** Inserts `x` in front of the first element of `t` whose sort key is not
      smaller than its own; the key is `not primary`, so `False` (primary)
      sorts first and equal keys keep their order. */
  function InsertByKey(x: Contact, t: seq<Contact>): seq<Contact>
  {
    if t == [] || x.primary || !t[0].primary then [x] + t
    else [t[0]] + InsertByKey(x, t[1..])
  }

  /** A stable sort of `s` by the key `not primary` (insertion sort). */
  function SortPrimaryFirst(s: seq<Contact>): seq<Contact>
  {
    if s == [] then [] else InsertByKey(s[0], SortPrimaryFirst(s[1..]))
  }

  /** A non-primary contact goes after every primary and before the other
      non-primaries. */
  lemma {:induction false} InsertNonPrimary(x: Contact, p: seq<Contact>, n: seq<Contact>)
    requires !x.primary
    requires forall i :: 0 <= i < |p| ==> p[i].primary
    requires n == [] || !n[0].primary
    ensures InsertByKey(x, p + n) == p + [x] + n
  {
    if p == [] {
      assert p + n == n;
    } else {
      assert (p + n)[1..] == p[1..] + n;
      InsertNonPrimary(x, p[1..], n);
    }
  }

  /** The stable sort puts the primaries first and the rest after them,
      each part in its original order. */
  lemma {:induction false} SortSplits(s: seq<Contact>)
    ensures SortPrimaryFirst(s) == Filter(s, IsPrimary) + Filter(s, NotPrimary)
  {
    if s != [] {
      var x, rest := s[0], s[1..];
      SortSplits(rest);
      var p, n := Filter(rest, IsPrimary), Filter(rest, NotPrimary);
      assert Filter(s, IsPrimary) == (if x.primary then [x] else []) + p;
      assert Filter(s, NotPrimary) == (if x.primary then [] else [x]) + n;
      if x.primary {
        assert SortPrimaryFirst(s) == [x] + (p + n);
      } else {
        assert n == [] || n[0] in n;
        InsertNonPrimary(x, p, n);
      }
    }
  }

  /** The sort is a permutation. */
  lemma SortIsPermutation(s: seq<Contact>)
    ensures multiset(SortPrimaryFirst(s)) == multiset(s)
  {
    SortSplits(s);
    FilterPartition(s, IsPrimary, NotPrimary);
  }

  /** The sort puts every primary before every non-primary. */
  lemma SortPutsPrimariesFirst(s: seq<Contact>)
    ensures forall i, j :: 0 <= i < j < |SortPrimaryFirst(s)| && SortPrimaryFirst(s)[j].primary
                           ==> SortPrimaryFirst(s)[i].primary
  {
    var p, n := Filter(s, IsPrimary), Filter(s, NotPrimary);
    var r := SortPrimaryFirst(s);
    SortSplits(s);
    assert forall i :: 0 <= i < |p| ==> r[i] == p[i] && r[i].primary;
    assert forall j :: |p| <= j < |r| ==> r[j] == n[j - |p|] && !r[j].primary;
  }

  /** The sort keeps the list order among the primaries and among the rest. */
  lemma SortIsStable(s: seq<Contact>)
    ensures Filter(SortPrimaryFirst(s), IsPrimary) == Filter(s, IsPrimary)
    ensures Filter(SortPrimaryFirst(s), NotPrimary) == Filter(s, NotPrimary)
  {
    var p, n := Filter(s, IsPrimary), Filter(s, NotPrimary);
    SortSplits(s);
    FilterAppend(p, n, IsPrimary);
    FilterAppend(p, n, NotPrimary);
    FilterAll(p, IsPrimary);
    FilterNone(n, IsPrimary);
    FilterNone(p, NotPrimary);
    FilterAll(n, NotPrimary);
  }

  /** The members shown under `category`. */
  function GroupOf(s: seq<Contact>, category: string): (g: seq<Contact>)
    ensures multiset(g) == multiset(Filter(s, InCategory(category)))
  {
    SortIsPermutation(Filter(s, InCategory(category)));
    SortPrimaryFirst(Filter(s, InCategory(category)))
  }

  /** The view: every category in display order, even an empty one. */
  function View(s: seq<Contact>): (v: seq<Group>)
    ensures |v| == |Categories|
    ensures forall k :: 0 <= k < |v| ==> v[k].category == Categories[k]
  {
    seq(|Categories|, k requires 0 <= k < |Categories| => Group(Categories[k], GroupOf(s, Categories[k])))
  }

  /** Each group holds exactly the contacts of its category (with their
      multiplicities), primaries before the rest, and keeps the list order
      among the primaries and among the rest. */
  lemma ViewGroup(s: seq<Contact>, k: nat)
    requires k < |Categories|
    ensures var g := View(s)[k];
      && g.category == Categories[k]
      && multiset(g.members) == multiset(Filter(s, InCategory(Categories[k])))
      && (forall i :: 0 <= i < |g.members| ==> g.members[i].relationship == Categories[k])
      && (forall i, j :: 0 <= i < j < |g.members| && g.members[j].primary ==> g.members[i].primary)
      && Filter(g.members, IsPrimary) == Filter(Filter(s, InCategory(Categories[k])), IsPrimary)
      && Filter(g.members, NotPrimary) == Filter(Filter(s, InCategory(Categories[k])), NotPrimary)
  {
    var inCat := Filter(s, InCategory(Categories[k]));
    var members := View(s)[k].members;
    SortPutsPrimariesFirst(inCat);
    SortIsStable(inCat);
    forall i | 0 <= i < |members| ensures members[i].relationship == Categories[k] {
      assert members[i] in multiset(members);
    }
  }

  /** A contact whose relationship is in the list is shown under it; a
      contact with any other relationship is shown nowhere. */
  lemma ViewPlacement(s: seq<Contact>, c: Contact)
    requires c in s
    ensures forall k :: 0 <= k < |Categories| ==> (c in View(s)[k].members <==> c.relationship == Categories[k])
  {
    forall k | 0 <= k < |Categories|
      ensures c in View(s)[k].members <==> c.relationship == Categories[k]
    {
      var inCat := Filter(s, InCategory(Categories[k]));
        assert c in View(s)[k].members <==> c in multiset(inCat);
      if c.relationship == Categories[k] {
        var i :| 0 <= i < |s| && s[i] == c;
      }
    }
  }
}

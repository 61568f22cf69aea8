/** The "at most two primaries per relationship category" rule, applied
    when the Primary checkbox of the contact form is ticked. */
module PrimarySlots {
  import opened Seqs
  import opened Contacts
  import opened Manager

  /** A primary contact in `category` other than the one being edited. */
  predicate IsOtherPrimary(c: Contact, category: string, editing: Option<int>)
  {
    c.relationship == category && c.primary && editing != Some(c.id)
  }

  /** The test for a primary in `category`. */
  function PrimaryIn(category: string): Contact -> bool
  {
    (c: Contact) => c.relationship == category && c.primary
  }

  /** The test for a primary the rule counts. */
  function OtherIn(category: string, editing: Option<int>): Contact -> bool
  {
    (c: Contact) => IsOtherPrimary(c, category, editing)
  }

  /** The primaries the rule counts, in list order. */
  function OtherPrimaries(s: seq<Contact>, category: string, editing: Option<int>): (r: seq<Contact>)
    ensures forall i :: 0 <= i < |r| ==> IsOtherPrimary(r[i], category, editing) && r[i] in s
    ensures forall i :: 0 <= i < |s| && IsOtherPrimary(s[i], category, editing) ==> s[i] in r
  {
    Filter(s, OtherIn(category, editing))
  }

  /** The number of primaries in `category`. */
  function PrimaryCount(s: seq<Contact>, category: string): nat
  {
    |Filter(s, PrimaryIn(category))|
  }

  /** The capacity rule: no category holds more than two primaries. */
  ghost predicate AtMostTwo(s: seq<Contact>)
  {
    forall category :: PrimaryCount(s, category) <= 2
  }

  /** Position `i` holds the counted primary that sorting by id puts first:
      the smallest id, and the earliest in the list among equal ids. */
  predicate IsOldestOther(s: seq<Contact>, i: nat, category: string, editing: Option<int>)
  {
    && i < |s|
    && IsOtherPrimary(s[i], category, editing)
    && (forall j :: 0 <= j < |s| && IsOtherPrimary(s[j], category, editing) ==> s[i].id <= s[j].id)
    && (forall j :: 0 <= j < i && IsOtherPrimary(s[j], category, editing) ==> s[i].id < s[j].id)
  }

  /** The position of the counted primary that a stable sort by id puts
      first, or `None` when nothing is counted. */
  function OldestOther(s: seq<Contact>, category: string, editing: Option<int>): (r: Option<nat>)
    ensures r.None? <==> forall j :: 0 <= j < |s| ==> !IsOtherPrimary(s[j], category, editing)
    ensures r.Some? ==> IsOldestOther(s, r.value, category, editing)
  {
    if s == [] then None
    else
      var last := |s| - 1;
      var rest := OldestOther(s[..last], category, editing);
      if !IsOtherPrimary(s[last], category, editing) then rest
      else if rest.None? || s[last].id < s[rest.value].id then Some(last)
      else rest
  }

  /** The oldest counted primary is determined uniquely. */
  lemma OldestOtherUnique(s: seq<Contact>, i: nat, j: nat, category: string, editing: Option<int>)
    requires IsOldestOther(s, i, category, editing) && IsOldestOther(s, j, category, editing)
    ensures i == j
  {
  }

  /** Clears the primary flag of the contact at `i`. */
  function Demote(s: seq<Contact>, i: nat): (r: seq<Contact>)
    requires i < |s|
    ensures |r| == |s| && !r[i].primary
    ensures forall j :: 0 <= j < |s| && j != i ==> r[j] == s[j]
    ensures r[i] == s[i].(primary := false)
  {
    s[i := s[i].(primary := false)]
  }

  /** Demoting a counted primary leaves exactly one fewer counted primary. */
  lemma DemoteDropsOneOther(s: seq<Contact>, i: nat, category: string, editing: Option<int>)
    requires i < |s| && IsOtherPrimary(s[i], category, editing)
    ensures |OtherPrimaries(Demote(s, i), category, editing)| == |OtherPrimaries(s, category, editing)| - 1
  {
    FilterUpdateCount(s, i, s[i].(primary := false), OtherIn(category, editing));
  }

  /** Demoting never adds a primary to any category. */
  lemma DemoteKeepsCapacity(s: seq<Contact>, i: nat)
    requires i < |s|
    ensures forall category :: PrimaryCount(Demote(s, i), category) <= PrimaryCount(s, category)
    ensures AtMostTwo(s) ==> AtMostTwo(Demote(s, i))
  {
    forall category ensures PrimaryCount(Demote(s, i), category) <= PrimaryCount(s, category) {
      FilterUpdateCount(s, i, s[i].(primary := false), PrimaryIn(category));
    }
  }

  /** The counted primaries are among the category's primaries. */
  lemma OthersWithinCount(s: seq<Contact>, category: string, editing: Option<int>)
    ensures |OtherPrimaries(s, category, editing)| <= PrimaryCount(s, category)
  {
    FilterMonotone(s, OtherIn(category, editing), PrimaryIn(category));
  }

  /** Appending a contact keeps the capacity rule when it is not primary or
      its category had room for one more. */
  lemma AddKeepsCapacity(s: seq<Contact>, c: Contact)
    requires AtMostTwo(s)
    requires c.primary ==> PrimaryCount(s, c.relationship) <= 1
    ensures AtMostTwo(s + [c])
  {
    forall category ensures PrimaryCount(s + [c], category) <= 2 {
      var inCat := PrimaryIn(category);
      assert PrimaryCount(s, category) <= 2;
      FilterAppend(s, [c], inCat);
      assert [c][1..] == [];
      assert |Filter([c], inCat)| == if inCat(c) then 1 else 0;
    }
  }

  /** With unique ids, a primary of `category` at `i` is the one primary
      of that category that the rule does not count when its id is edited. */
  lemma OwnPrimaryUncounted(t: seq<Contact>, i: nat, category: string)
    requires i < |t| && UniqueIds(t)
    requires t[i].relationship == category && t[i].primary
    ensures PrimaryCount(t, category) == |OtherPrimaries(t, category, Some(t[i].id))| + 1
  {
    var inCat, other := PrimaryIn(category), OtherIn(category, Some(t[i].id));
    FilterAround(t, i, inCat);
    FilterAround(t, i, other);
    FilterAgree(t[..i], inCat, other);
    FilterAgree(t[i + 1..], inCat, other);
  }

  /** Overwriting the contact at `i` with a record of the same id keeps the
      capacity rule when the record is not primary or at most one other
      primary (not counting that id) sits in its category. Ids must be unique,
      as they are when the counter is fresh. */
  lemma EditKeepsCapacity(s: seq<Contact>, i: nat, c: Contact)
    requires i < |s| && c.id == s[i].id && UniqueIds(s)
    requires AtMostTwo(s)
    requires c.primary ==> |OtherPrimaries(s, c.relationship, Some(c.id))| <= 1
    ensures AtMostTwo(s[i := c])
  {
    var t := s[i := c];
    assert UniqueIds(t) by {
      forall j, k | 0 <= j < k < |t| ensures t[j].id != t[k].id {
        assert t[j].id == s[j].id && t[k].id == s[k].id;
      }
    }
    forall category ensures PrimaryCount(t, category) <= 2 {
      assert PrimaryCount(s, category) <= 2;
      FilterUpdateCount(s, i, c, PrimaryIn(category));
      if c.primary && c.relationship == category {
        FilterUpdateCount(s, i, c, OtherIn(category, Some(c.id)));
        OwnPrimaryUncounted(t, i, category);
      }
    }
  }

  /** Reacts to a click on the Primary checkbox. `checked` is the box's new
      state, `category` the relationship chosen in the form, and `replace`
      the user's answer to the "Maximum Primary Reached" question. With two
      or more other primaries in the category, accepting demotes the one
      with the smallest id and declining unticks the box. The result is the
      box's state afterwards. */
  method OnPrimaryToggle(m: ContactManager, checked: bool, category: string, replace: bool)
    returns (primary: bool)
    modifies m`contacts
    ensures primary == (checked && (|OtherPrimaries(old(m.contacts), category, m.editingId)| < 2 || replace))
    ensures checked && |OtherPrimaries(old(m.contacts), category, m.editingId)| >= 2 && replace ==>
      && OldestOther(old(m.contacts), category, m.editingId).Some?
      && m.contacts == Demote(old(m.contacts), OldestOther(old(m.contacts), category, m.editingId).value)
    ensures !(checked && |OtherPrimaries(old(m.contacts), category, m.editingId)| >= 2 && replace) ==>
      m.contacts == old(m.contacts)
    ensures primary && AtMostTwo(old(m.contacts)) ==> |OtherPrimaries(m.contacts, category, m.editingId)| <= 1
    ensures AtMostTwo(old(m.contacts)) ==> AtMostTwo(m.contacts)
    ensures old(m.FreshCounter()) ==> m.FreshCounter()
    ensures old(UniqueIds(m.contacts)) ==> UniqueIds(m.contacts)
  {
    primary := checked;
    OthersWithinCount(m.contacts, category, m.editingId);
    if checked {
      var others := OtherPrimaries(m.contacts, category, m.editingId);
      if |others| >= 2 {
        if replace {
          var oldest := OldestOther(m.contacts, category, m.editingId);
          assert others[0] in m.contacts;
          assert oldest.Some?;
          var i := oldest.value;
          DemoteDropsOneOther(m.contacts, i, category, m.editingId);
          DemoteKeepsCapacity(m.contacts, i);
          m.contacts := Demote(m.contacts, i);
        } else {
          primary := false;
        }
      }
    }
  }
}

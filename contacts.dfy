/** The contact record and the read-only queries over a list of them:
    lookup by id, the OR-based duplicate test, the largest id, and the
    filter that deletion keeps. */
module Contacts {
  import opened Seqs

  datatype Option<T> = None | Some(value: T)

  /** One emergency contact. `Person` and its subclass `EmergencyContact`
      are flattened into a single record; `id` is the store-assigned key. */
  datatype Contact = Contact(
    id: int,
    name: string,
    phone: string,
    email: string,
    address: string,
    relationship: string,
    primary: bool)

  /** Python truthiness of an optional id: `None` and `0` are both false. */
  predicate Truthy(id: Option<int>)
  {
    id.Some? && id.value != 0
  }

  /** Every stored id lies strictly below `bound`. */
  predicate IdsBelow(s: seq<Contact>, bound: int)
  {
    forall i :: 0 <= i < |s| ==> s[i].id < bound
  }

  /** No two stored contacts share an id. */
  predicate UniqueIds(s: seq<Contact>)
  {
    forall i, j :: 0 <= i < j < |s| ==> s[i].id != s[j].id
  }

  /** The contacts whose id differs from `id`, in their original order. */
  function WithoutId(s: seq<Contact>, id: int): (r: seq<Contact>)
    ensures forall i :: 0 <= i < |r| ==> r[i].id != id && r[i] in s
    ensures forall i :: 0 <= i < |s| && s[i].id != id ==> s[i] in r
  {
    Filter(s, (c: Contact) => c.id != id)
  }

  /** Deleting an id nobody has leaves the list as it was. */
  lemma WithoutAbsentId(s: seq<Contact>, id: int)
    requires forall i :: 0 <= i < |s| ==> s[i].id != id
    ensures WithoutId(s, id) == s
  {
    FilterAll(s, (c: Contact) => c.id != id);
  }

  /** Deletion keeps every id below a bound that was above all ids before. */
  lemma WithoutIdKeepsBound(s: seq<Contact>, id: int, bound: int)
    requires IdsBelow(s, bound)
    ensures IdsBelow(WithoutId(s, id), bound)
  {
    var r := WithoutId(s, id);
    forall i | 0 <= i < |r| ensures r[i].id < bound {
      var j :| 0 <= j < |s| && s[j] == r[i];
    }
  }

  /** The position of the first contact with `id`, the one a generator
      search over the list stops at. */
  function FirstIndex(s: seq<Contact>, id: int): (r: Option<nat>)
    ensures r.None? <==> forall j :: 0 <= j < |s| ==> s[j].id != id
    ensures r.Some? ==> r.value < |s| && s[r.value].id == id
    ensures r.Some? ==> forall j :: 0 <= j < r.value ==> s[j].id != id
  {
    if s == [] then None
    else if s[0].id == id then Some(0)
    else match FirstIndex(s[1..], id)
      case None => None
      case Some(k) => Some(k + 1)
  }

  /** The largest id in a non-empty list. */
  function MaxId(s: seq<Contact>): (m: int)
    requires s != []
    ensures forall i :: 0 <= i < |s| ==> s[i].id <= m
    ensures exists i :: 0 <= i < |s| && s[i].id == m
  {
    if |s| == 1 then s[0].id
    else
      var rest := MaxId(s[1..]);
      if s[0].id >= rest then s[0].id else rest
  }

  /** A contact is skipped by the duplicate test when a truthy ignore id names it. */
  predicate Skipped(c: Contact, ignore: Option<int>)
  {
    Truthy(ignore) && c.id == ignore.value
  }

  /** The loose OR-match: any one of name, phone or email is enough. */
  predicate Clashes(c: Contact, name: string, phone: string, email: string)
  {
    c.name == name || c.phone == phone || c.email == email
  }

  /** Some contact that is not skipped clashes with the given details. */
  predicate Duplicated(s: seq<Contact>, name: string, phone: string, email: string, ignore: Option<int>)
  {
    exists i :: 0 <= i < |s| && !Skipped(s[i], ignore) && Clashes(s[i], name, phone, email)
  }

  /** Address and relationship take no part in the duplicate test: lists that
      agree position by position on id, name, phone and email agree on it. */
  lemma DuplicatedIgnoresAddressAndRelationship(
    s: seq<Contact>, t: seq<Contact>, name: string, phone: string, email: string, ignore: Option<int>)
    requires |s| == |t|
    requires forall i :: 0 <= i < |s| ==>
      s[i].id == t[i].id && s[i].name == t[i].name && s[i].phone == t[i].phone && s[i].email == t[i].email
    ensures Duplicated(s, name, phone, email, ignore) == Duplicated(t, name, phone, email, ignore)
  {
    if Duplicated(s, name, phone, email, ignore) {
      var i :| 0 <= i < |s| && !Skipped(s[i], ignore) && Clashes(s[i], name, phone, email);
      assert !Skipped(t[i], ignore) && Clashes(t[i], name, phone, email);
    }
    if Duplicated(t, name, phone, email, ignore) {
      var i :| 0 <= i < |t| && !Skipped(t[i], ignore) && Clashes(t[i], name, phone, email);
      assert !Skipped(s[i], ignore) && Clashes(s[i], name, phone, email);
    }
  }
}

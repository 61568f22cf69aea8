/** The non-widget logic of the contact form: saving (validation, then add
    or update), loading a contact into the form for editing, and deleting a
    selected contact. Dialog answers are boolean inputs; the form's entries
    arrive already stripped of surrounding whitespace. */
module ContactForm {
  import opened Seqs
  import opened Contacts
  import opened Codec
  import opened Manager
  import opened PrimarySlots

  /** What the form holds when Save is pressed. */
  datatype Form = Form(
    name: string,
    phone: string,
    email: string,
    relationship: string,
    address: string,
    primary: bool)

  datatype Rejection = MissingField | PhoneNotDigits | DuplicateContact

  /** A rejected save changes nothing; a committed one reports whether it
      updated an existing contact and carries the array it wrote. */
  datatype SaveOutcome = Rejected(reason: Rejection) | Committed(updated: bool, file: seq<Record>)

  /** One of the four required entries is empty (relationship is not checked). */
  predicate HasEmptyField(f: Form)
  {
    f.name == [] || f.phone == [] || f.email == [] || f.address == []
  }

  /** A non-empty string of ASCII digits. */
  predicate IsAsciiDigits(s: string)
  {
    |s| > 0 && forall i :: 0 <= i < |s| ==> '0' <= s[i] <= '9'
  }

  /** Relationship and the Primary box take no part in the required-entry
      check. */
  lemma RelationshipNotRequired(f: Form, relationship: string, primary: bool)
    ensures HasEmptyField(f.(relationship := relationship, primary := primary)) == HasEmptyField(f)
    ensures HasEmptyField(f) <==> [] in [f.name, f.phone, f.email, f.address]
  {
    var entries := [f.name, f.phone, f.email, f.address];
    if HasEmptyField(f) {
      if f.name == [] { assert entries[0] == []; }
      else if f.phone == [] { assert entries[1] == []; }
      else if f.email == [] { assert entries[2] == []; }
      else { assert entries[3] == []; }
    }
  }

  /** The phone check rejects the empty entry and any entry holding a space,
      a sign, a dot or a bracket, so formatted numbers are refused. */
  lemma PhoneCheckRejectsFormatting(phone: string, i: nat)
    ensures !IsAsciiDigits([])
    ensures i < |phone| && phone[i] in " +-.()" ==> !IsAsciiDigits(phone)
  {
  }

  /** The contact the form describes, under `id`. */
  function FromForm(f: Form, id: int): (c: Contact)
  {
    Contact(id, f.name, f.phone, f.email, f.address, f.relationship, f.primary)
  }

  /** The form filled in from a contact, as Edit Selected does. */
  function ToForm(c: Contact): (f: Form)
  {
    Form(c.name, c.phone, c.email, c.relationship, c.address, c.primary)
  }

  /** Saving a contact's own form back under its id changes nothing. */
  lemma FormRoundTrip(c: Contact)
    ensures FromForm(ToForm(c), c.id) == c
  {
  }

  /** The list after the edit branch: the first contact with `id` takes the
      form's fields and keeps its id; with no such contact nothing changes. */
  function EditAt(s: seq<Contact>, id: int, f: Form): (r: seq<Contact>)
    ensures |r| == |s|
    ensures forall j :: 0 <= j < |s| ==> r[j].id == s[j].id
    ensures forall j :: 0 <= j < |s| && (FirstIndex(s, id).None? || j != FirstIndex(s, id).value) ==> r[j] == s[j]
    ensures FirstIndex(s, id).None? ==> r == s
    ensures FirstIndex(s, id).Some? ==> r[FirstIndex(s, id).value] == FromForm(f, id)
  {
    match FirstIndex(s, id)
    case None => s
    case Some(i) => s[i := FromForm(f, s[i].id)]
  }

  /** The edit branch keeps the capacity rule when the edited record is not
      primary or at most one other primary (not counting its id) sits in its
      category. */
  lemma EditAtKeepsCapacity(s: seq<Contact>, id: int, f: Form)
    requires AtMostTwo(s) && UniqueIds(s)
    requires f.primary ==> |OtherPrimaries(s, f.relationship, Some(id))| <= 1
    ensures AtMostTwo(EditAt(s, id, f))
  {
    match FirstIndex(s, id)
    case None =>
    case Some(i) => EditKeepsCapacity(s, i, FromForm(f, s[i].id));
  }

  /** The add branch keeps the capacity rule when the new record is not
      primary or its category holds at most one primary. */
  lemma AddFormKeepsCapacity(s: seq<Contact>, id: int, f: Form)
    requires AtMostTwo(s)
    requires f.primary ==> |OtherPrimaries(s, f.relationship, None)| <= 1
    ensures AtMostTwo(s + [FromForm(f, id)])
  {
    FilterAgree(s, OtherIn(f.relationship, None), PrimaryIn(f.relationship));
    AddKeepsCapacity(s, FromForm(f, id));
  }

  /** Save Contact. Checks, in order: every required entry is filled, the
      phone is digits only, and no other contact shares name, phone or email.
      Then it updates the contact being edited (when the editing id is truthy)
      or adds a new one, clears the editing id and writes the file. The
      duplicate test is the call with name, phone and email as the only
      positional arguments; the call as written at emergency_contact_app.py:299-302 cannot bind
      (see `AsWrittenDuplicateCallRaises`). */
  method SaveEmergencyContact(m: ContactManager, f: Form) returns (outcome: SaveOutcome)
    modifies m
    ensures outcome == Rejected(MissingField) <==> HasEmptyField(f)
    ensures outcome == Rejected(PhoneNotDigits) <==> !HasEmptyField(f) && !IsAsciiDigits(f.phone)
    ensures outcome == Rejected(DuplicateContact) <==>
      && !HasEmptyField(f) && IsAsciiDigits(f.phone)
      && Duplicated(old(m.contacts), f.name, f.phone, f.email, old(m.editingId))
    ensures outcome.Committed? <==>
      && !HasEmptyField(f) && IsAsciiDigits(f.phone)
      && !Duplicated(old(m.contacts), f.name, f.phone, f.email, old(m.editingId))
    ensures outcome.Rejected? ==>
      m.contacts == old(m.contacts) && m.counter == old(m.counter) && m.editingId == old(m.editingId)
    ensures outcome.Committed? ==>
      && m.editingId == None
      && outcome.updated == Truthy(old(m.editingId))
      && DecodeAll(outcome.file) == Loaded(m.contacts)
    ensures outcome.Committed? && outcome.updated ==>
      m.contacts == EditAt(old(m.contacts), old(m.editingId).value, f) && m.counter == old(m.counter)
    ensures outcome.Committed? && !outcome.updated ==>
      m.contacts == old(m.contacts) + [FromForm(f, old(m.counter))] && m.counter == old(m.counter) + 1
    ensures old(m.FreshCounter()) ==> m.FreshCounter()
    ensures old(m.FreshCounter() && UniqueIds(m.contacts)) ==> UniqueIds(m.contacts)
    ensures
      && outcome.Committed?
      && AtMostTwo(old(m.contacts)) && UniqueIds(old(m.contacts)) && old(m.editingId) != Some(0)
      && (f.primary ==> |OtherPrimaries(old(m.contacts), f.relationship, old(m.editingId))| <= 1)
      ==> AtMostTwo(m.contacts)
  {
    if HasEmptyField(f) {
      return Rejected(MissingField);
    }
    if !IsAsciiDigits(f.phone) {
      return Rejected(PhoneNotDigits);
    }
    var dup := m.IsDuplicate(f.name, f.phone, f.email, m.editingId);
    if dup {
      return Rejected(DuplicateContact);
    }
    ghost var before := m.contacts;
    var updated := Truthy(m.editingId);
    if updated {
      var id := m.editingId.value;
      if AtMostTwo(before) && UniqueIds(before)
         && (f.primary ==> |OtherPrimaries(before, f.relationship, Some(id))| <= 1) {
        EditAtKeepsCapacity(before, id, f);
      }
      var found := FirstIndex(m.contacts, id);
      if found.Some? {
        var i := found.value;
        m.contacts := m.contacts[i := FromForm(f, m.contacts[i].id)];
      }
    } else {
      if AtMostTwo(before) && m.editingId.None?
         && (f.primary ==> |OtherPrimaries(before, f.relationship, None)| <= 1) {
        AddFormKeepsCapacity(before, m.counter, f);
      }
      var c := FromForm(f, m.counter);
      assert c.(id := m.counter) == c;
      m.AddContact(c);
    }
    m.editingId := None;
    var file := m.SaveToFile();
    outcome := Committed(updated, file);
  }

  /** Edit Selected: loads the contact with `id` into the form and makes it
      the one being edited; with no such contact nothing happens. */
  method EditSelected(m: ContactManager, id: int) returns (f: Option<Form>)
    modifies m`editingId
    ensures f.None? <==> m.GetContact(id).None?
    ensures f.Some? ==> f.value == ToForm(m.GetContact(id).value) && m.editingId == Some(id)
    ensures f.None? ==> m.editingId == old(m.editingId)
  {
    var c := m.GetContact(id);
    if c.Some? {
      m.editingId := Some(c.value.id);
      f := Some(ToForm(c.value));
    } else {
      f := None;
    }
  }

  /** Delete Selected, after the confirmation answer `confirmed`: removes
      every contact with `id`, writes the file, and stops editing when the
      deleted id was the one being edited. */
  method DeleteSelected(m: ContactManager, id: int, confirmed: bool) returns (file: Option<seq<Record>>)
    modifies m`contacts, m`editingId
    ensures !confirmed ==> file.None? && m.contacts == old(m.contacts) && m.editingId == old(m.editingId)
    ensures confirmed ==>
      && m.contacts == WithoutId(old(m.contacts), id)
      && file.Some? && DecodeAll(file.value) == Loaded(m.contacts)
      && m.editingId == (if old(m.editingId) == Some(id) then None else old(m.editingId))
    ensures old(m.FreshCounter()) ==> m.FreshCounter()
  {
    if !confirmed {
      return None;
    }
    m.DeleteContact(id);
    var written := m.SaveToFile();
    file := Some(written);
    if m.editingId == Some(id) {
      m.editingId := None;
    }
  }

  /** Ticking Primary and then pressing Save with the same category: the
      toggle's demotion makes room before the save, so the capacity rule
      survives (an editing id of 0 is excluded: Python treats it as "not
      editing" when saving but still skips id 0 when counting). */
  method TickPrimaryThenSave(m: ContactManager, f: Form, replace: bool) returns (outcome: SaveOutcome)
    modifies m
    ensures AtMostTwo(old(m.contacts)) && UniqueIds(old(m.contacts)) && old(m.editingId) != Some(0)
      ==> AtMostTwo(m.contacts)
  {
    var primary := OnPrimaryToggle(m, true, f.relationship, replace);
    outcome := SaveEmergencyContact(m, f.(primary := primary));
  }

  /** Two Friend primaries, and a new Friend contact ticked as primary. */
  const Dan: Form := Form("Dan", "444", "dan@x", "Friend", "4 Road", true)
  const Eve: Form := Form("Eve", "555", "eve@x", "Friend", "5 Road", true)
  const Fay: Form := Form("Fay", "666", "fay@x", "Friend", "6 Road", true)

  /** Dan and Eve as stored, with Fay about to join them. */
  lemma FriendPairFacts()
    ensures AtMostTwo([FromForm(Dan, 1), FromForm(Eve, 2)])
    ensures |OtherPrimaries([FromForm(Dan, 1), FromForm(Eve, 2)], "Family", None)| == 0
    ensures PrimaryCount([FromForm(Dan, 1), FromForm(Eve, 2), FromForm(Fay, 3)], "Friend") == 3
  {
    var s := [FromForm(Dan, 1), FromForm(Eve, 2)];
    forall category ensures PrimaryCount(s, category) <= 2 {
    }
    FilterNone(s, OtherIn("Family", None));
    FilterAll([FromForm(Dan, 1), FromForm(Eve, 2), FromForm(Fay, 3)], PrimaryIn("Friend"));
  }

  /** A fresh store after saving Dan and then Eve, both Friend primaries. */
  method TwoFriendPrimaries() returns (m: ContactManager)
    ensures fresh(m)
    ensures m.contacts == [FromForm(Dan, 1), FromForm(Eve, 2)] && m.counter == 3 && m.editingId == None
  {
    m := new ContactManager();
    assert IsAsciiDigits(Dan.phone) && IsAsciiDigits(Eve.phone);
    var outcome := SaveEmergencyContact(m, Dan);
    assert m.contacts == [FromForm(Dan, 1)];
    assert !Clashes(m.contacts[0], Eve.name, Eve.phone, Eve.email);
    outcome := SaveEmergencyContact(m, Eve);
  }

  /** The rule is enforced only when the box is ticked. With Dan and Eve as
      Friend primaries, Primary is ticked while the form says Family (no
      primaries there, so nothing is asked or demoted); the form is then
      switched to Friend as Fay and saved, which commits a third Friend
      primary, whatever the replacement answer would have been. */
  method CategorySwitchAfterTickExceedsCapacity(replace: bool) returns (final: seq<Contact>)
    ensures AtMostTwo([FromForm(Dan, 1), FromForm(Eve, 2)])
    ensures final == [FromForm(Dan, 1), FromForm(Eve, 2), FromForm(Fay, 3)]
    ensures PrimaryCount(final, "Friend") == 3 && !AtMostTwo(final)
  {
    FriendPairFacts();
    var m := TwoFriendPrimaries();
    var primary := OnPrimaryToggle(m, true, "Family", replace);
    assert primary && m.contacts == [FromForm(Dan, 1), FromForm(Eve, 2)];
    assert !Clashes(m.contacts[0], Fay.name, Fay.phone, Fay.email);
    assert !Clashes(m.contacts[1], Fay.name, Fay.phone, Fay.email);
    assert IsAsciiDigits(Fay.phone);
    var outcome := SaveEmergencyContact(m, Fay.(primary := primary));
    final := m.contacts;
  }

  /** Ids repeated in a loaded file let an edit pass the cap: with two
      contacts under id 5, the toggle counts only id 6 as another Family
      primary, yet the edit rewrites the first id-5 contact (a non-primary
      Friend) into a third Family primary. */
  lemma RepeatedIdEditExceedsCapacity()
    ensures var s := [Contact(5, "Gus", "777", "gus@x", "7 Road", "Friend", false),
                      Contact(5, "Hal", "888", "hal@x", "8 Road", "Family", true),
                      Contact(6, "Ida", "999", "ida@x", "9 Road", "Family", true)];
      && AtMostTwo(s) && !UniqueIds(s)
      && |OtherPrimaries(s, "Family", Some(5))| == 1
      && PrimaryCount(EditAt(s, 5, Form("Gus", "777", "gus@x", "Family", "7 Road", true)), "Family") == 3
  {
    var s := [Contact(5, "Gus", "777", "gus@x", "7 Road", "Friend", false),
              Contact(5, "Hal", "888", "hal@x", "8 Road", "Family", true),
              Contact(6, "Ida", "999", "ida@x", "9 Road", "Family", true)];
    forall category ensures PrimaryCount(s, category) <= 2 {
      assert s == [s[0]] + [s[1], s[2]];
      assert !PrimaryIn(category)(s[0]);
    }
    assert OtherPrimaries(s, "Family", Some(5)) == [s[2]];
    var t := EditAt(s, 5, Form("Gus", "777", "gus@x", "Family", "7 Road", true));
    assert FirstIndex(s, 5) == Some(0);
    FilterAll(t, PrimaryIn("Family"));
  }

  /** How Python binds a call to `is_duplicate(self, name, phone, email,
      ignore_id=None)`: the parameters after `self`, in order; the first
      three are required. */
  const IsDuplicateParams: seq<string> := ["name", "phone", "email", "ignore_id"]
  const RequiredParams: nat := 3

  datatype Binding = Bound | TooManyPositional | MultipleValues | UnexpectedKeyword | MissingArgument

  /** Binds `positional` positional arguments and the keyword arguments
      `keywords`; anything but `Bound` is a `TypeError` raised before the
      body runs. As in CPython, the positional arguments fill the slots they
      can, the keywords are checked next (a clash with a filled slot, then a
      name that is not a parameter), and only then are surplus positional
      arguments and missing required ones reported. */
  function BindIsDuplicateCall(positional: nat, keywords: set<string>): (b: Binding)
    ensures b == Bound ==> positional <= |IsDuplicateParams|
    ensures b == Bound ==> forall k :: k in keywords ==> k in IsDuplicateParams[positional..]
    ensures b == Bound ==> forall i :: positional <= i < RequiredParams ==> IsDuplicateParams[i] in keywords
    ensures keywords == {} && positional > |IsDuplicateParams| ==> b == TooManyPositional
  {
    var filled := if positional < |IsDuplicateParams| then positional else |IsDuplicateParams|;
    if exists k :: k in keywords && k in IsDuplicateParams[..filled] then MultipleValues
    else if exists k :: k in keywords && k !in IsDuplicateParams then UnexpectedKeyword
    else if positional > |IsDuplicateParams| then TooManyPositional
    else if exists i :: positional <= i < RequiredParams && IsDuplicateParams[i] !in keywords then MissingArgument
    else Bound
  }

  /** A keyword clash is reported before surplus positional arguments: five
      positional arguments with `ignore_id=` still fail on `ignore_id`. */
  lemma KeywordClashBeforeSurplus()
    ensures BindIsDuplicateCall(5, {"ignore_id"}) == MultipleValues
  {
    assert IsDuplicateParams[..4] == IsDuplicateParams;
    assert IsDuplicateParams[3] == "ignore_id";
  }

  /** The call in Save Contact passes name, phone, email and address
      positionally and `ignore_id=` by keyword: the address already fills
      `ignore_id`, so the call raises before any duplicate check, on every
      form that passed validation. */
  lemma AsWrittenDuplicateCallRaises()
    ensures BindIsDuplicateCall(4, {"ignore_id"}) == MultipleValues
  {
    assert IsDuplicateParams[..4] == IsDuplicateParams;
    assert IsDuplicateParams[3] == "ignore_id";
  }

  /** Passing only the three compared fields positionally binds. */
  lemma IntendedDuplicateCallBinds()
    ensures BindIsDuplicateCall(3, {"ignore_id"}) == Bound
  {
    assert IsDuplicateParams[..3] == ["name", "phone", "email"];
  }

  const Ann: Form := Form("Ann", "111", "ann@x", "Family", "1 Road", true)
  const Bob: Form := Form("Bob", "222", "bob@x", "Family", "2 Road", true)
  const Cat: Form := Form("Cat", "333", "cat@x", "Family", "3 Road", true)

  /** A fresh store after saving Ann and then Bob, both Family primaries. */
  method TwoFamilyPrimaries() returns (m: ContactManager)
    ensures fresh(m)
    ensures m.contacts == [FromForm(Ann, 1), FromForm(Bob, 2)] && m.counter == 3 && m.editingId == None
  {
    m := new ContactManager();
    assert IsAsciiDigits(Ann.phone) && IsAsciiDigits(Bob.phone);
    var outcome := SaveEmergencyContact(m, Ann);
    assert m.contacts == [FromForm(Ann, 1)];
    assert !Clashes(m.contacts[0], Bob.name, Bob.phone, Bob.email);
    outcome := SaveEmergencyContact(m, Bob);
  }

  /** Ticking Primary for a new Family contact with Ann and Bob in place:
      two others are counted, and accepting the replacement demotes Ann. */
  method TickThirdFamilyPrimary(m: ContactManager, replace: bool) returns (primary: bool)
    requires m.contacts == [FromForm(Ann, 1), FromForm(Bob, 2)] && m.editingId == None
    modifies m`contacts
    ensures primary == replace
    ensures m.contacts == [FromForm(Ann, 1).(primary := !replace), FromForm(Bob, 2)]
  {
    FilterAll(m.contacts, OtherIn("Family", None));
    assert OldestOther(m.contacts, "Family", None) == Some(0);
    primary := OnPrimaryToggle(m, true, "Family", replace);
  }

  /** With Ann and Bob as Family primaries, Cat is ticked as a Family
      primary and saved. Accepting the replacement demotes Ann (the smallest
      id) and commits Cat as primary; declining commits Cat as a non-primary
      and leaves Ann and Bob alone. */
  method ThirdFamilyPrimaryScenario(replace: bool) returns (final: seq<Contact>)
    ensures |final| == 3
    ensures final[0].id == 1 && final[1].id == 2 && final[2].id == 3
    ensures final[0].primary == !replace && final[1].primary && final[2].primary == replace
  {
    var m := TwoFamilyPrimaries();
    var primary := TickThirdFamilyPrimary(m, replace);
    var c := Cat.(primary := primary);
    assert !Clashes(m.contacts[0], c.name, c.phone, c.email);
    assert !Clashes(m.contacts[1], c.name, c.phone, c.email);
    assert IsAsciiDigits(c.phone);
    var outcome := SaveEmergencyContact(m, c);
    final := m.contacts;
  }
}

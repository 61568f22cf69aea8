/** The in-memory contact store: an ordered list of contacts, the counter
    that hands out ids, and the id of the contact the form is editing. */
module Manager {
  import opened Seqs
  import opened Contacts
  import opened Codec

  class ContactManager {
    var contacts: seq<Contact>
    var counter: int
    var editingId: Option<int>

    /** Every stored id lies below the counter, so the next id handed out is fresh. */
    predicate FreshCounter()
      reads this
    {
      IdsBelow(contacts, counter)
    }

    constructor ()
      ensures contacts == [] && counter == 1 && editingId == None
      ensures FreshCounter()
    {
      contacts := [];
      counter := 1;
      editingId := None;
    }

    /** Stamps `c` with the counter, appends it and bumps the counter by one. */
    method AddContact(c: Contact)
      modifies this`contacts, this`counter
      ensures contacts == old(contacts) + [c.(id := old(counter))]
      ensures counter == old(counter) + 1
      ensures old(FreshCounter()) ==> FreshCounter()
      ensures old(FreshCounter()) ==> forall i :: 0 <= i < |old(contacts)| ==> old(contacts)[i].id < contacts[|contacts| - 1].id
      ensures old(FreshCounter() && UniqueIds(contacts)) ==> UniqueIds(contacts)
    {
      contacts := contacts + [c.(id := counter)];
      counter := counter + 1;
    }

    /** Rebuilds the list without the contacts whose id is `id`. */
    method DeleteContact(id: int)
      modifies this`contacts
      ensures contacts == WithoutId(old(contacts), id)
      ensures (forall i :: 0 <= i < |old(contacts)| ==> old(contacts)[i].id != id) ==> contacts == old(contacts)
      ensures old(FreshCounter()) ==> FreshCounter()
    {
      var s := contacts;
      if forall j :: 0 <= j < |s| ==> s[j].id != id {
        WithoutAbsentId(s, id);
      }
      if FreshCounter() {
        WithoutIdKeepsBound(s, id, counter);
      }
      var kept: seq<Contact> := [];
      var i := 0;
      while i < |s|
        invariant 0 <= i <= |s|
        invariant kept == WithoutId(s[..i], id)
        invariant contacts == s
      {
        FilterSnoc(s, i, (c: Contact) => c.id != id);
        if s[i].id != id {
          kept := kept + [s[i]];
        }
        i := i + 1;
      }
      assert s[..i] == s;
      contacts := kept;
    }

    /** The first contact with `id`, or `None` when no contact has it. */
    function GetContact(id: int): (r: Option<Contact>)
      reads this
      ensures r.None? <==> forall i :: 0 <= i < |contacts| ==> contacts[i].id != id
      ensures r.Some? ==> r.value.id == id
      ensures r.Some? ==> exists i :: 0 <= i < |contacts| && contacts[i] == r.value
                                      && forall j :: 0 <= j < i ==> contacts[j].id != id
    {
      match FirstIndex(contacts, id)
      case None => None
      case Some(i) => Some(contacts[i])
    }

    /** Whether some contact, other than the one a truthy `ignore` names,
        shares the name, the phone or the email. */
    method IsDuplicate(name: string, phone: string, email: string, ignore: Option<int>) returns (dup: bool)
      ensures dup <==> Duplicated(contacts, name, phone, email, ignore)
    {
      var i := 0;
      while i < |contacts|
        invariant 0 <= i <= |contacts|
        invariant forall j :: 0 <= j < i ==> Skipped(contacts[j], ignore) || !Clashes(contacts[j], name, phone, email)
      {
        var c := contacts[i];
        if !(Truthy(ignore) && c.id == ignore.value) {
          if c.name == name || c.phone == phone || c.email == email {
            return true;
          }
        }
        i := i + 1;
      }
      return false;
    }

    /** The array a save writes: one object per contact with the fixed keys,
        each of which reads back as that contact. */
    method SaveToFile() returns (file: seq<Record>)
      ensures |file| == |contacts|
      ensures forall i :: 0 <= i < |file| ==> file[i].Keys == FieldKeys && Decode(file[i]) == Some(contacts[i])
      ensures DecodeAll(file) == Loaded(contacts)
    {
      file := EncodeAll(contacts);
      forall i | 0 <= i < |file| ensures Decode(file[i]) == Some(contacts[i]) {
        DecodeEncode(contacts[i]);
      }
      SaveLoadRoundTrip(contacts);
    }

    /** Replaces the list with the decoded contents of `file` (`None` is a
        missing file). A failing object stops the load with the contacts
        decoded so far in place and `ok` false. A non-empty successful load
        resets the counter to the largest id plus one. */
    method LoadFromFile(file: Option<seq<Record>>) returns (ok: bool)
      modifies this`contacts, this`counter
      ensures file.None? ==> ok && contacts == [] && counter == old(counter)
      ensures file.Some? ==> ok == DecodeAll(file.value).Loaded?
      ensures file.Some? && ok ==> contacts == DecodeAll(file.value).contacts
      ensures file.Some? && !ok ==> contacts == DecodeAll(file.value).prefix && counter == old(counter)
      ensures ok && contacts == [] ==> counter == old(counter)
      ensures ok && contacts != [] ==> counter == MaxId(contacts) + 1
      ensures ok ==> FreshCounter()
    {
      if file.None? {
        contacts := [];
        return true;
      }
      var data := file.value;
      contacts := [];
      var i := 0;
      while i < |data|
        invariant 0 <= i <= |data|
        invariant DecodeAll(data[..i]) == Loaded(contacts)
        invariant counter == old(counter)
      {
        var d := Decode(data[i]);
        assert data[..i + 1][..i] == data[..i];
        if d.None? {
          KeyErrorPersists(data, i + 1);
          return false;
        }
        contacts := contacts + [d.value];
        i := i + 1;
      }
      assert data[..i] == data;
      if contacts != [] {
        counter := MaxId(contacts) + 1;
      }
      return true;
    }
  }
}

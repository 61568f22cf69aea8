/** The persisted form of the contact list: a JSON array of objects with a
    fixed key set. The array is a sequence of key-value records; JSON text,
    indentation and the file itself are not modelled. */
module Codec {
  import opened Contacts

  /** The JSON values a contact record holds. */
  datatype Value = Int(i: int) | Str(s: string) | Bool(b: bool)

  /** One JSON object. */
  type Record = map<string, Value>

  const IdKey: string := "id"
  const NameKey: string := "name"
  /** Written with a space, exactly as the file format has it. */
  const PhoneKey: string := "phone number"
  const EmailKey: string := "email"
  const RelationshipKey: string := "relationship"
  const AddressKey: string := "address"
  const PrimaryKey: string := "primary"

  const FieldKeys: set<string> :=
    {IdKey, NameKey, PhoneKey, EmailKey, RelationshipKey, AddressKey, PrimaryKey}

  /** The object written for one contact. */
  function Encode(c: Contact): (r: Record)
    ensures r.Keys == FieldKeys
  {
    map[IdKey := Int(c.id), NameKey := Str(c.name), PhoneKey := Str(c.phone),
        EmailKey := Str(c.email), RelationshipKey := Str(c.relationship),
        AddressKey := Str(c.address), PrimaryKey := Bool(c.primary)]
  }

  /** Rebuilds a contact from an object; `None` stands for the `KeyError`
      raised when a key is missing (or holds a value of the wrong kind).
      Keys outside the fixed set are ignored. */
  function Decode(r: Record): (d: Option<Contact>)
    ensures d.Some? ==> FieldKeys <= r.Keys
  {
    if FieldKeys <= r.Keys
      && r[IdKey].Int? && r[NameKey].Str? && r[PhoneKey].Str? && r[EmailKey].Str?
      && r[RelationshipKey].Str? && r[AddressKey].Str? && r[PrimaryKey].Bool?
    then
      Some(Contact(r[IdKey].i, r[NameKey].s, r[PhoneKey].s, r[EmailKey].s,
                   r[AddressKey].s, r[RelationshipKey].s, r[PrimaryKey].b))
    else None
  }

  /** Decoding what was encoded gives the same contact back. */
  lemma DecodeEncode(c: Contact)
    ensures Decode(Encode(c)) == Some(c)
  {
  }

  /** Encoding a decoded contact reproduces the fixed keys of the object it came from. */
  lemma EncodeDecode(r: Record, c: Contact)
    requires Decode(r) == Some(c)
    ensures forall k :: k in FieldKeys ==> k in r && Encode(c)[k] == r[k]
  {
  }

  /** The array written by a save: one object per contact, in list order. */
  function EncodeAll(s: seq<Contact>): (file: seq<Record>)
    ensures |file| == |s|
    ensures forall i :: 0 <= i < |file| ==> file[i].Keys == FieldKeys && Decode(file[i]) == Some(s[i])
  {
    seq(|s|, i requires 0 <= i < |s| => Encode(s[i]))
  }

  /** What a load produces: every object decoded, or the contacts decoded
      before the first object whose decoding raised. */
  datatype LoadResult = Loaded(contacts: seq<Contact>) | KeyError(prefix: seq<Contact>)

  /** Decodes the objects one after another, stopping at the first failure. */
  function DecodeAll(file: seq<Record>): (r: LoadResult)
    ensures r.Loaded? ==> |r.contacts| == |file|
    ensures r.Loaded? ==> forall i :: 0 <= i < |file| ==> Decode(file[i]) == Some(r.contacts[i])
    ensures r.KeyError? ==> |r.prefix| < |file| && Decode(file[|r.prefix|]).None?
    ensures r.KeyError? ==> forall i :: 0 <= i < |r.prefix| ==> Decode(file[i]) == Some(r.prefix[i])
  {
    if file == [] then Loaded([])
    else
      match DecodeAll(file[..|file| - 1])
      case KeyError(p) => KeyError(p)
      case Loaded(cs) =>
        match Decode(file[|file| - 1])
        case None => KeyError(cs)
        case Some(c) => Loaded(cs + [c])
  }

  /** Once a prefix of the array fails to decode, the whole array fails the same way. */
  lemma {:induction false} KeyErrorPersists(file: seq<Record>, j: nat)
    requires j <= |file|
    requires DecodeAll(file[..j]).KeyError?
    ensures DecodeAll(file) == DecodeAll(file[..j])
  {
    if j < |file| {
      var front := file[..|file| - 1];
      assert front[..j] == file[..j];
      KeyErrorPersists(front, j);
    } else {
      assert file[..j] == file;
    }
  }

  /** Loading what was saved restores the same contacts, field by field and in order. */
  lemma SaveLoadRoundTrip(s: seq<Contact>)
    ensures DecodeAll(EncodeAll(s)) == Loaded(s)
  {
    var file := EncodeAll(s);
    var r := DecodeAll(file);
    if r.KeyError? {
      DecodeEncode(s[|r.prefix|]);
      assert false;
    }
    forall i | 0 <= i < |s| ensures r.contacts[i] == s[i] {
      DecodeEncode(s[i]);
    }
  }
}

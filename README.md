# Emergency contact store

A Dafny model of the emergency-contact component of a travel helper
application. This is the contact store and the rules that the contact form
applies to it:

- **`ContactManager`.** An ordered list of contacts, an id counter, and the
  id of the contact the form is editing. It supports:
  - adding a contact under the next id;
  - deleting by id;
  - looking a contact up by id;
  - an OR-based duplicate test on name, phone or email;
  - saving the list to, and loading it from, an array of JSON objects with a
    fixed key set (including the key `"phone number"`).
- **Primary-slot rule.** When the Primary box is ticked and the category
  already has two or more other primaries, the user may demote the one with
  the smallest id. If they decline, the box is unticked.
- **Save Contact.** Checks that the required entries are filled, that the
  phone is digits only, and that the contact is not a duplicate. It then
  either updates the contact being edited or adds a new one, and writes the
  file. As written, the duplicate call passes the address as a fourth
  positional argument and raises `TypeError` (see "## Findings"). The model's
  save uses the call with name, phone and email as the only positional
  arguments, and every committed save in the scenarios below runs through
  that corrected save.
- **Edit Selected and Delete Selected.** Both act once a contact id has been
  chosen.
- **The category view.** It shows four fixed categories in a fixed order.
  Each category lists its contacts with primaries first, using a stable sort.

## How the model is organised

| module | file | what it holds |
|---|---|---|
| `Seqs` | `seqs.dfy` | The order-preserving filter behind every list comprehension, with its algebra. |
| `Contacts` | `contacts.dfy` | The contact record, Python truthiness of an optional id, and the read-only queries. |
| `Codec` | `codec.dfy` | The saved form: records as maps from key to JSON value, plus encode, decode and the whole-array load. |
| `Manager` | `manager.dfy` | The `ContactManager` class; its fields are updated in place. |
| `PrimarySlots` | `primary.dfy` | The capacity-two rule and the toggle handler. |
| `ContactForm` | `form.dfy` | Save, edit and delete as the form drives them, plus a worked scenario. |
| `CategoryView` | `view.dfy` | The grouped, primaries-first view. |

Dialog answers ("replace one of them?", "delete this contact?") are boolean
parameters. A file that does not exist is the input `None`.

**What is proved.**
- **Id freshness.** `FreshCounter`, which says every id is below the
  counter, holds from construction. Adding, deleting, a successful load, the
  toggle and a save all keep it, and each added id is above every earlier id.
- **Deletion.** It keeps exactly the contacts whose id differs, in their
  original order.
- **Save and load.** Loading what was saved gives back the same list.
- **The capacity rule.** A toggle that accepts replacement demotes exactly
  the oldest other primary. It never breaks "at most two primaries per
  category", and when that rule held before, a ticked box leaves at most
  one other primary.
- **The view.** Each group is a permutation of its category's contacts, with
  primaries first, and the order is kept within the primaries and within the
  rest.

The capacity rule is applied only when the box is ticked, not when the form
is saved. The scenarios below commit through the corrected save. `CategorySwitchAfterTickExceedsCapacity` exhibits a third primary
being committed after the category is changed following the tick. Ticking
and then saving with the same category (`TickPrimaryThenSave`) keeps the
rule while ids are unique. A file that repeats an id lets an edit go past
the cap (`RepeatedIdEditExceedsCapacity`).

## Model

| member | source | states |
|---|---|---|
| Seqs.Filter | emergency_contact_app.py:32 | The comprehension filter keeps only elements that satisfy the test and drops none that do, never growing the list; order and algebra follow from FilterAppend, FilterAll, FilterNone and FilterPartition. |
| Contacts.WithoutId | emergency_contact_app.py:32 | The list after deleting `id` holds no contact with that id, and it holds every contact of the original whose id differs. |
| Contacts.WithoutAbsentId | emergency_contact_app.py:31-32 | Deleting an id that no contact has leaves the list unchanged. |
| Contacts.WithoutIdKeepsBound | emergency_contact_app.py:31-32 | Deleting cannot break "every id below the counter". |
| Contacts.FirstIndex | emergency_contact_app.py:35 | The generator search returns None exactly when no contact has the id; otherwise it returns the position of the first contact that does. |
| Contacts.MaxId | emergency_contact_app.py:74 | `max(c.id ...)` over a non-empty list is at least every id and equals one of them. |
| Contacts.DuplicatedIgnoresAddressAndRelationship | emergency_contact_app.py:37-43 | The duplicate test compares only name, phone and email (and the skipped id): lists that agree on those agree on the verdict. |
| Codec.Encode | emergency_contact_app.py:47-55 | A saved object has exactly the seven keys, including `"phone number"`. |
| Codec.Decode | emergency_contact_app.py:63-71 | A contact is rebuilt only from an object that has all seven keys; otherwise the result is the KeyError case. |
| Codec.DecodeEncode | emergency_contact_app.py:47-71 | Decoding the object saved for a contact gives back that contact, field by field. |
| Codec.EncodeDecode | emergency_contact_app.py:47-71 | Re-encoding a decoded contact reproduces the original object on all seven keys. |
| Codec.DecodeAll | emergency_contact_app.py:62-72 | A load either decodes every object, in order and to the same count, or stops at the first object that raises, keeping the contacts decoded before it. |
| Codec.KeyErrorPersists | emergency_contact_app.py:62-72 | Once a prefix of the array raises, the load of the whole array raises at the same place with the same partial list. |
| Codec.EncodeAll | emergency_contact_app.py:47-55 | The saved array has one object per contact, in list order; each has exactly the seven keys and decodes to its contact. |
| Codec.SaveLoadRoundTrip | emergency_contact_app.py:45-72 | Loading the array written by a save gives back the same contacts in the same order. |
| Manager.ContactManager.constructor | emergency_contact_app.py:21-24 | The store starts empty, with counter 1, not editing, and with the counter fresh. |
| Manager.ContactManager.AddContact | emergency_contact_app.py:26-29 | Appends the contact stamped with the current counter, leaves earlier contacts unchanged, and increases the counter by exactly one. It keeps the counter fresh; the new id is above every earlier id, and unique ids stay unique. |
| Manager.ContactManager.DeleteContact | emergency_contact_app.py:31-32 | The new list is the original without the contacts that have the id, in order. An absent id changes nothing. The counter is untouched and stays fresh. |
| Manager.ContactManager.GetContact | emergency_contact_app.py:34-35 | Returns None exactly when no contact has the id; otherwise returns a contact with that id, with no earlier contact holding it. |
| Manager.ContactManager.IsDuplicate | emergency_contact_app.py:37-43 | True exactly when some contact, other than one whose id equals a truthy ignore id, matches on name OR phone OR email. |
| Manager.ContactManager.SaveToFile | emergency_contact_app.py:45-55 | Writes one object per contact, in order, each with exactly the seven keys and each decoding to its contact; the whole array loads back as the current list. |
| Manager.ContactManager.LoadFromFile | emergency_contact_app.py:57-76 | A missing file empties the list and keeps the counter. Otherwise the load succeeds exactly when every object decodes. On failure the decoded prefix is left in place and the counter is kept. A non-empty load sets the counter to the largest id plus one, an empty load keeps it, and every success leaves the counter fresh. |
| PrimarySlots.OtherPrimaries | emergency_contact_app.py:265-266 | The counted list holds exactly the primaries of the category whose id is not the editing id. |
| PrimarySlots.OldestOther | emergency_contact_app.py:275-276 | The first element after the stable sort by id is absent exactly when nothing is counted. Otherwise it is a counted primary with the smallest id, and the earliest in the list among equal ids. |
| PrimarySlots.OldestOtherUnique | emergency_contact_app.py:275 | The contact that the sort puts first is determined uniquely. |
| PrimarySlots.Demote | emergency_contact_app.py:276 | Clearing the flag changes only that contact's primary field. |
| PrimarySlots.DemoteDropsOneOther | emergency_contact_app.py:268-276 | Demoting a counted primary leaves exactly one fewer counted primary. |
| PrimarySlots.DemoteKeepsCapacity | emergency_contact_app.py:274-276 | Demoting never raises any category's primary count, so it keeps "at most two per category". |
| PrimarySlots.OthersWithinCount | emergency_contact_app.py:265-266 | The counted primaries are no more than the category's primaries. |
| PrimarySlots.AddKeepsCapacity | emergency_contact_app.py:321-330 | Appending a contact keeps "at most two per category" when it is not primary or its category has at most one primary. |
| PrimarySlots.OwnPrimaryUncounted | emergency_contact_app.py:265-266 | With unique ids, while a primary is being edited its category counts exactly one primary more than the rule counts: the edited contact itself. |
| PrimarySlots.EditKeepsCapacity | emergency_contact_app.py:310-318 | With unique ids, overwriting a contact under its own id keeps "at most two per category" when the new record is not primary or at most one other primary sits in its category. |
| PrimarySlots.OnPrimaryToggle | emergency_contact_app.py:259-278 | The box stays ticked exactly when it was ticked and either fewer than two others are counted or replacement is accepted. An acceptance with two or more others demotes exactly the oldest other; in every other case the list is unchanged. When every category held at most two primaries before, a ticked result leaves at most one other. Capacity, counter freshness and unique ids are kept. |
| ContactForm.RelationshipNotRequired | emergency_contact_app.py:290 | The required-entry check fails exactly when name, phone, email or address is empty. Relationship and the Primary box never affect it. |
| ContactForm.PhoneCheckRejectsFormatting | emergency_contact_app.py:294 | The phone check rejects the empty entry, and any entry holding a space, `+`, `-`, `.` or a bracket. |
| ContactForm.FormRoundTrip | emergency_contact_app.py:412-429 | Filling the form from a contact and saving it under the same id reproduces the contact. |
| ContactForm.EditAt | emergency_contact_app.py:310-318 | The update branch changes only the first contact with the editing id, to the form's fields under that id. It keeps every id and the length, and with no such contact the list is unchanged. |
| ContactForm.EditAtKeepsCapacity | emergency_contact_app.py:310-318 | When ids are unique, the update branch keeps "at most two per category" under the toggle's guarantee of at most one other primary. |
| ContactForm.AddFormKeepsCapacity | emergency_contact_app.py:321-330 | The add branch keeps "at most two per category" under the toggle's guarantee of at most one other primary. |
| ContactForm.SaveEmergencyContact | emergency_contact_app.py:289-331 | Each rejection holds exactly when its check is the first to fail, in the source's order; otherwise the save commits. A rejection changes nothing. A commit clears the editing id and reports an update exactly when the editing id was truthy. It either edits in place with the counter kept, or appends the form under the counter and increments it. The written file loads back as the new list. Freshness and unique ids are kept. Capacity is kept when ids are unique, the editing id is not 0, and the toggle's guarantee of at most one other primary holds. |
| ContactForm.EditSelected | emergency_contact_app.py:411-432 | When the id exists, the form receives that contact and the editing id becomes that id; otherwise nothing changes. |
| ContactForm.DeleteSelected | emergency_contact_app.py:448-461 | A declined confirmation changes nothing. A confirmed one deletes every contact with the id and writes a file that loads back as the new list. Editing stops exactly when the deleted id was being edited. |
| ContactForm.TickPrimaryThenSave | emergency_contact_app.py:259-331 | Ticking Primary and then saving with the same category keeps "at most two primaries per category", given unique ids and an editing id other than 0. |
| ContactForm.CategorySwitchAfterTickExceedsCapacity | emergency_contact_app.py:259-331 | Driven through the toggle and the save: with two Friend primaries stored, ticking with the form on Family keeps the tick and changes nothing. Saving the form switched to Friend then commits a third Friend primary, so the final list breaks "at most two per category". |
| ContactForm.BindIsDuplicateCall | emergency_contact_app.py:37 | A call binds only when it has at most four positional arguments, every keyword names a parameter not already filled positionally, and the three required parameters are all filled. As in CPython, a keyword clash or unknown keyword is reported before surplus positional arguments; with no keywords, more than four positional arguments is the surplus error. |
| ContactForm.KeywordClashBeforeSurplus | emergency_contact_app.py:37 | Five positional arguments with `ignore_id=` fail on the `ignore_id` clash, not on the surplus argument. |
| ContactForm.AsWrittenDuplicateCallRaises | emergency_contact_app.py:299-302 | The call with four positional arguments and `ignore_id=` fails to bind because `ignore_id` receives two values. |
| ContactForm.IntendedDuplicateCallBinds | emergency_contact_app.py:37-43 | The call with name, phone and email positional and `ignore_id=` binds. |
| ContactForm.FriendPairFacts | emergency_contact_app.py:265-266 | Two Friend primaries respect the cap, count as no Family others, and with a third Friend primary appended the Friend count is 3. |
| ContactForm.TwoFriendPrimaries | emergency_contact_app.py:289-331 | Two saves of Friend primaries (through `add_contact` at emergency_contact_app.py:26-29) into a new store (emergency_contact_app.py:21-24) give ids 1 and 2, in order, and leave the counter at 3. |
| ContactForm.RepeatedIdEditExceedsCapacity | emergency_contact_app.py:310-318 | A list that repeats id 5 respects the cap and has one Family primary other than id 5. Editing id 5 as a Family primary rewrites the first id-5 contact and gives Family three primaries. |
| ContactForm.TwoFamilyPrimaries | emergency_contact_app.py:289-331 | Two saves of Family primaries (through `add_contact` at emergency_contact_app.py:26-29) into a new store (emergency_contact_app.py:21-24) give ids 1 and 2, in order, and leave the counter at 3. |
| ContactForm.TickThirdFamilyPrimary | emergency_contact_app.py:259-278 | With two Family primaries, ticking Primary for a third Family contact keeps the tick exactly when replacement is accepted, and then demotes the one with id 1. |
| ContactForm.ThirdFamilyPrimaryScenario | emergency_contact_app.py:259-331 | After the tick and the save, the third contact gets id 3. Accepting replacement leaves ids 2 and 3 primary and id 1 not; declining leaves ids 1 and 2 primary and id 3 not. |
| CategoryView.SortSplits | emergency_contact_app.py:382-385 | The stable sort on the key `not primary` (`SortPrimaryFirst`, an insertion sort by `InsertByKey`) equals the primaries in list order followed by the rest in list order. |
| CategoryView.SortIsPermutation | emergency_contact_app.py:382-385 | The sort is a permutation of its input. |
| CategoryView.SortPutsPrimariesFirst | emergency_contact_app.py:382-385 | After the sort, no non-primary comes before a primary. |
| CategoryView.SortIsStable | emergency_contact_app.py:382-385 | The sort keeps the list order among the primaries and among the rest. |
| CategoryView.GroupOf | emergency_contact_app.py:382-383 | A category's group is a permutation of the contacts with that relationship. |
| CategoryView.View | emergency_contact_app.py:374-379 | The view has one group per category, in the order Family, Friend, Emergency, Travel Related, including empty ones. |
| CategoryView.ViewGroup | emergency_contact_app.py:377-385 | Each group is a permutation of the contacts with that relationship, primaries first, with list order kept among the primaries and among the rest. |
| CategoryView.ViewPlacement | emergency_contact_app.py:377-385 | A stored contact appears in a group exactly when its relationship is that group's category, so a contact with another relationship appears nowhere. |

## Left out

- Widgets, layout, the tree widget and message boxes (emergency_contact_app.py:78-257, 333-343, 350-363) are not modelled. Dialog answers are boolean parameters, and the view is the list of groups, not tree rows.
- The tree's rejection of two rows with the same iid is not modelled. It could happen after loading a file with repeated ids.
- The selection checks in Edit Selected and Delete Selected (no selection, or a category row selected) are not modelled, nor the `int` conversion of the row id. Both methods start from a chosen id.
- `reset_emergency_form` is modelled only through its effect on the editing id; `clear_emergency_form`, `refresh` and `save_data` are thin wrappers and are not modelled.
- File I/O and JSON text are not modelled: no `open`, indentation, key order or parsing. A file is the array of objects it holds, and a missing file is `None`. A file that is not valid JSON, or whose top level is not an array, is not modelled.
- `.strip()` on the entries is not modelled: the form's fields arrive already stripped.
- Codec.Decode: a key holding a JSON value of an unexpected kind (for example a string id) is treated as a failed load. Python would instead carry that value into the contact.
- ContactForm.IsAsciiDigits: accepts only `'0'`..`'9'`. Python's `str.isdigit` also accepts other Unicode digits.
- ContactForm.SaveEmergencyContact: the capacity guarantee assumes unique ids. A loaded file may repeat an id (ids are read back unchecked at emergency_contact_app.py:71). The toggle then skips every contact with the editing id, and the edit rewrites only the first of them, so an edit can push a category past two primaries (`RepeatedIdEditExceedsCapacity`).
- ContactForm.SaveEmergencyContact: the capacity guarantee also assumes the editing id is not 0. With editing id 0, the toggle skips id 0 when counting, but the save treats 0 as "not editing" and appends.
- Contact objects are shared between the list and the toggle's `primary_contacts` list, and the fields are mutated through that shared reference. The model replaces the element at its index instead, so it does not capture aliasing beyond that.
- The success message text (emergency_contact_app.py:334-343) is not modelled.
- packing_GUI.py is not part of this model. It is a UI shell over modules (`packing_func`, `storage`, `constant`) whose source is not part of this model, so its progress computation cannot be stated.

## Findings

| source | as written | input that shows it | evidently intended | confidence | as-written member | corrected member |
|---|---|---|---|---|---|---|
| emergency_contact_app.py:299-302 | `is_duplicate(name, phone_num, email, address, ignore_id=...)`: the address fills the `ignore_id` slot positionally, and the keyword supplies it again, so Python raises `TypeError` before any comparison | any form that passes the two validation checks, for example name "Ann", phone "111", email "a@x", address "1 Road" | `is_duplicate(name, phone_num, email, ignore_id=editing_contact_id)` | high, not executed | ContactForm.AsWrittenDuplicateCallRaises | ContactForm.SaveEmergencyContact |

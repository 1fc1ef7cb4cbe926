/** The contact store: an ordered in-memory list of contacts and the counter
    that hands out ids. Every operation is a mock that waits on a timer
    (not modelled) and then works on the list directly; `GetContact` and
    `FetchContacts` leave the list alone. */
module Contacts {
  import opened Wrappers

  /** A contact. `id` and `image` are optional fields of the record. */
  datatype Contact = Contact(id: Option<int>, name: string, email: string, phone: string, image: Option<string>)

  /** The three contacts the store starts with. */
  const Seed: seq<Contact> := [
    Contact(Some(1), "João Silva", "joao@email.com", "(11) 98765-4321", Some("")),
    Contact(Some(2), "Maria Santos", "maria@email.com", "(21) 99876-5432", Some("")),
    Contact(Some(3), "Pedro Oliveira", "pedro@email.com", "(31) 97654-3210", Some(""))
  ]

  const SeedNextId := 4

  const NotFound := "Contact not found"

  /** Every stored contact has an id below `nextId`, and no two share one. */
  ghost predicate IdsValid(cs: seq<Contact>, nextId: int) {
    (forall k :: 0 <= k < |cs| ==> cs[k].id.Some? && cs[k].id.value < nextId)
    && (forall j, k :: 0 <= j < k < |cs| ==> cs[j].id != cs[k].id)
  }

  /** `findIndex((c) => c.id === id)`: the position of the first contact with
      that id, or -1 when there is none. */
  function FirstIndexOf(cs: seq<Contact>, id: int): (r: int)
    ensures -1 <= r < |cs|
    ensures r == -1 <==> forall k :: 0 <= k < |cs| ==> cs[k].id != Some(id)
    ensures r >= 0 ==> cs[r].id == Some(id) && forall k :: 0 <= k < r ==> cs[k].id != Some(id)
  {
    if cs == [] then -1
    else if cs[0].id == Some(id) then 0
    else
      var j := FirstIndexOf(cs[1..], id);
      if j == -1 then -1 else j + 1
  }

  /** `filter((c) => c.id !== id)`. */
  function WithoutId(cs: seq<Contact>, id: int): (r: seq<Contact>)
    ensures |r| <= |cs|
    ensures forall k :: 0 <= k < |r| ==> r[k].id != Some(id) && r[k] in cs
  {
    if cs == [] then []
    else (if cs[0].id == Some(id) then [] else [cs[0]]) + WithoutId(cs[1..], id)
  }

  /** The record `{...contact, id, image}`: the caller's fields with the id and
      image replaced. */
  function Stamped(contact: Contact, id: int, image: string): (r: Contact)
    ensures r.id == Some(id) && r.image == Some(image)
    ensures r.name == contact.name && r.email == contact.email && r.phone == contact.phone
  {
    contact.(id := Some(id), image := Some(image))
  }

  // ---------------------------------------------------------------------
  // Properties of the list operations

  lemma SeedValid()
    ensures IdsValid(Seed, SeedNextId)
  {
  }

  /** Filtering works piecewise, so the kept contacts keep their order. */
  lemma {:induction false} WithoutIdConcat(a: seq<Contact>, b: seq<Contact>, id: int)
    ensures WithoutId(a + b, id) == WithoutId(a, id) + WithoutId(b, id)
  {
    if a == [] {
      assert a + b == b;
    } else {
      assert (a + b)[0] == a[0];
      assert (a + b)[1..] == a[1..] + b;
      WithoutIdConcat(a[1..], b, id);
    }
  }

  /** Deleting an id nobody has changes nothing. */
  lemma {:induction false} WithoutIdAbsent(cs: seq<Contact>, id: int)
    requires forall k :: 0 <= k < |cs| ==> cs[k].id != Some(id)
    ensures WithoutId(cs, id) == cs
  {
    if cs != [] {
      WithoutIdAbsent(cs[1..], id);
    }
  }

  /** Every contact with another id survives the filter. */
  lemma {:induction false} WithoutIdKeeps(cs: seq<Contact>, id: int, c: Contact)
    requires c in cs && c.id != Some(id)
    ensures c in WithoutId(cs, id)
  {
    if cs[0] != c {
      WithoutIdKeeps(cs[1..], id, c);
    }
  }

  /** With distinct ids, deleting a present id removes exactly the one
      contact at its position. */
  lemma WithoutIdRemovesOne(cs: seq<Contact>, id: int)
    requires forall j, k :: 0 <= j < k < |cs| ==> cs[j].id != cs[k].id
    requires FirstIndexOf(cs, id) >= 0
    ensures var i := FirstIndexOf(cs, id); WithoutId(cs, id) == cs[..i] + cs[i + 1..]
  {
    var i := FirstIndexOf(cs, id);
    assert cs == cs[..i] + [cs[i]] + cs[i + 1..];
    var after := cs[i + 1..];
    forall k | 0 <= k < |after|
      ensures after[k].id != Some(id)
    {
      assert after[k] == cs[i + 1 + k];
    }
    WithoutIdSplit(cs[..i], cs[i], after, id);
  }

  /** Filtering out the one contact with the id, between two runs without it. */
  lemma WithoutIdSplit(before: seq<Contact>, c: Contact, after: seq<Contact>, id: int)
    requires forall k :: 0 <= k < |before| ==> before[k].id != Some(id)
    requires forall k :: 0 <= k < |after| ==> after[k].id != Some(id)
    requires c.id == Some(id)
    ensures WithoutId(before + [c] + after, id) == before + after
  {
    WithoutIdAbsent(before, id);
    WithoutIdAbsent(after, id);
    assert WithoutId([c], id) == [] by {
      assert [c][1..] == [];
    }
    calc {
      WithoutId(before + [c] + after, id);
      { WithoutIdConcat(before + [c], after, id); }
      WithoutId(before + [c], id) + WithoutId(after, id);
      { WithoutIdConcat(before, [c], id); }
      WithoutId(before, id) + WithoutId([c], id) + WithoutId(after, id);
      before + WithoutId([c], id) + after;
    }
    var empty: seq<Contact> := [];
    assert before + empty == before;
  }

  /** Deleting keeps the id invariant. */
  lemma DeletePreservesIds(cs: seq<Contact>, nextId: int, id: int)
    requires IdsValid(cs, nextId)
    ensures IdsValid(WithoutId(cs, id), nextId)
  {
    var i := FirstIndexOf(cs, id);
    if i == -1 {
      WithoutIdAbsent(cs, id);
    } else {
      WithoutIdRemovesOne(cs, id);
      RemoveAtPreservesIds(cs, nextId, i);
    }
  }

  /** Dropping the contact at one position keeps the id invariant. */
  lemma RemoveAtPreservesIds(cs: seq<Contact>, nextId: int, i: int)
    requires IdsValid(cs, nextId) && 0 <= i < |cs|
    ensures IdsValid(cs[..i] + cs[i + 1..], nextId)
  {
    var r := cs[..i] + cs[i + 1..];
    assert forall k :: 0 <= k < |r| ==> r[k] == cs[if k < i then k else k + 1];
  }

  /** Appending a contact that carries the next id keeps the invariant for the
      incremented counter. */
  lemma AppendPreservesIds(cs: seq<Contact>, nextId: int, c: Contact)
    requires IdsValid(cs, nextId) && c.id == Some(nextId)
    ensures IdsValid(cs + [c], nextId + 1)
  {
  }

  /** Replacing a contact by one with the same id keeps the invariant. */
  lemma ReplacePreservesIds(cs: seq<Contact>, nextId: int, i: int, c: Contact)
    requires IdsValid(cs, nextId) && 0 <= i < |cs| && c.id == cs[i].id
    ensures IdsValid(cs[i := c], nextId)
  {
  }

  class ContactStore {
    var contacts: seq<Contact>
    var loading: bool
    var nextId: int

    ghost predicate Valid()
      reads this
    {
      IdsValid(contacts, nextId)
    }

    /** The store as it starts: the three seed contacts, the next id 4. */
    constructor ()
      ensures Valid()
      ensures contacts == Seed && nextId == SeedNextId && !loading
    {
      contacts := Seed;
      loading := false;
      nextId := SeedNextId;
      SeedValid();
    }

    /** A mock refresh: the list is left as it is and the store ends idle. */
    method FetchContacts()
      modifies this`loading
      ensures !loading
    {
      loading := true;
      loading := false;
    }

    /** The first contact with that id, or `None` when no contact has it. */
    method GetContact(id: int) returns (r: Option<Contact>)
      ensures r == None <==> forall k :: 0 <= k < |contacts| ==> contacts[k].id != Some(id)
      ensures r.Some? ==>
        exists i :: 0 <= i < |contacts| && contacts[i] == r.value && contacts[i].id == Some(id)
                    && (forall k :: 0 <= k < i ==> contacts[k].id != Some(id))
    {
      var i := FirstIndexOf(contacts, id);
      if i == -1 {
        r := None;
      } else {
        r := Some(contacts[i]);
      }
    }

    /** Appends the caller's contact under the next id, with the object URL of
        the image file or `""` when there is none, and advances the counter. */
    method CreateContact(contact: Contact, imageFile: Option<string>) returns (r: Contact)
      requires Valid()
      modifies this`contacts, this`nextId
      ensures Valid()
      ensures r == Stamped(contact, old(nextId), imageFile.GetOr(""))
      ensures contacts == old(contacts) + [r] && nextId == old(nextId) + 1
    {
      var imageUrl := "";
      if imageFile.Some? {
        imageUrl := imageFile.value;
      }
      r := Stamped(contact, nextId, imageUrl);
      nextId := nextId + 1;
      AppendPreservesIds(contacts, nextId - 1, r);
      contacts := contacts + [r];
    }

    /** Replaces the first contact with that id in place, keeping its image
        unless a new file is given; fails with "Contact not found" and changes
        nothing when no contact has the id. */
    method UpdateContact(id: int, contact: Contact, imageFile: Option<string>) returns (r: Result<Contact>)
      requires Valid()
      modifies this`contacts
      ensures Valid()
      ensures var i := FirstIndexOf(old(contacts), id);
        if i == -1 then
          r == Err(NotFound) && contacts == old(contacts)
        else
          r == Ok(Stamped(contact, id, imageFile.GetOr(old(contacts)[i].image.GetOr(""))))
          && contacts == old(contacts)[i := r.value]
    {
      var index := FirstIndexOf(contacts, id);
      if index == -1 {
        r := Err(NotFound);
        return;
      }
      var existing := contacts[index];
      var imageUrl := existing.image.GetOr("");
      if imageFile.Some? {
        imageUrl := imageFile.value;
      }
      var updated := Stamped(contact, id, imageUrl);
      ReplacePreservesIds(contacts, nextId, index, updated);
      contacts := contacts[index := updated];
      r := Ok(updated);
    }

    /** Removes every contact with that id; with the invariant that is the one
        contact at its position, or none. */
    method DeleteContact(id: int)
      requires Valid()
      modifies this`contacts
      ensures Valid()
      ensures contacts == WithoutId(old(contacts), id)
      ensures var i := FirstIndexOf(old(contacts), id);
        contacts == if i == -1 then old(contacts) else old(contacts)[..i] + old(contacts)[i + 1..]
    {
      DeletePreservesIds(contacts, nextId, id);
      if FirstIndexOf(contacts, id) == -1 {
        WithoutIdAbsent(contacts, id);
      } else {
        WithoutIdRemovesOne(contacts, id);
      }
      contacts := WithoutId(contacts, id);
    }
  }
}

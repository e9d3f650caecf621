/** The earlier global-contacts variant (module.php, GlobalContactsModule): team contacts
    are ordinary contacts with the storage 'global', scoped by tenant through a filter
    added to every global or all-storage listing. */
module GlobalContacts {
  import opened Common

  const GlobalStorage: string := "global"

  // ---------------------------------------------------------------------------
  // onGetStorage: the storage list is passed by reference and appended to.

  class StorageList {
    var storages: seq<string>

    constructor (s: seq<string>)
      ensures storages == s
    {
      storages := s;
    }
  }

  method OnGetStorage(list: StorageList)
    modifies list
    ensures list.storages == old(list.storages) + [GlobalStorage]
  {
    list.storages := list.storages + [GlobalStorage];
  }

  // ---------------------------------------------------------------------------
  // onBeforeGetContacts: the Filters argument is passed by reference and appended to.

  datatype Value = IntValue(i: int) | StrValue(s: string)

  /** One condition of a filter group: field, value, comparison. */
  datatype Cond = Cond(field: string, value: Value, op: string)

  /** An entry of the Filters array: a '$AND' group the hook builds, or an entry of the
      caller's that the model does not look into. */
  datatype FilterEntry = AndGroup(conds: seq<Cond>) | CallerFilter(key: string)

  /** The Filters argument: missing, present but not an array, or an array of entries. */
  datatype FilterSlot = Missing | NotArray | Filters(entries: seq<FilterEntry>)

  /** The group that restricts a listing to the caller's tenant's global contacts. */
  function TenantGlobalFilter(tenantId: nat): FilterEntry
  {
    AndGroup([Cond("IdTenant", IntValue(tenantId), "="), Cond("Storage", StrValue(GlobalStorage), "=")])
  }

  predicate GlobalScope(storage: Option<string>)
  {
    storage == Some(GlobalStorage) || storage == Some(AllStorage)
  }

  /** The entries already present, a missing or non-array Filters counting as none. */
  function ExistingEntries(f: FilterSlot): seq<FilterEntry>
  {
    if f.Filters? then f.entries else []
  }

  /** Filters after onBeforeGetContacts. */
  function AugmentedFilters(storage: Option<string>, f: FilterSlot, tenantId: nat): (r: FilterSlot)
    ensures !GlobalScope(storage) ==> r == f
    ensures GlobalScope(storage) ==>
              (r.Filters? &&
               |r.entries| == |ExistingEntries(f)| + 1 &&
               r.entries[..|ExistingEntries(f)|] == ExistingEntries(f) &&
               r.entries[|r.entries| - 1] == TenantGlobalFilter(tenantId))
  {
    if storage.Some? && (storage.value == GlobalStorage || storage.value == AllStorage) then
      var base := if f.Missing? || f.NotArray? then [] else f.entries;
      Filters(base + [TenantGlobalFilter(tenantId)])
    else f
  }

  /** The arguments of a GetContacts call, by reference. */
  class GetContactsArgs {
    var storage: Option<string>
    var filters: FilterSlot

    constructor (storage: Option<string>, filters: FilterSlot)
      ensures this.storage == storage && this.filters == filters
    {
      this.storage, this.filters := storage, filters;
    }
  }

  /** onBeforeGetContacts; `auth` is the authenticated caller. */
  method OnBeforeGetContacts(args: GetContactsArgs, auth: User)
    modifies args
    ensures args.storage == old(args.storage)
    ensures args.filters == AugmentedFilters(old(args.storage), old(args.filters), auth.tenantId)
  {
    if args.storage.Some? && (args.storage.value == GlobalStorage || args.storage.value == AllStorage) {
      if !args.filters.Filters? {
        args.filters := Filters([]);
      }
      args.filters := Filters(args.filters.entries + [TenantGlobalFilter(auth.tenantId)]);
    }
  }

  // ---------------------------------------------------------------------------
  // onBeforeDeleteEntity

  /** A contact as the contacts manager lists it. */
  datatype LegacyContact = LegacyContact(id: int, idUser: int, storage: string)

  /** The global contacts of a user, in the order the manager returns them (the
      '$AND' filter on IdUser and Storage). */
  function UserGlobalContacts(contacts: seq<LegacyContact>, userId: int): (r: seq<LegacyContact>)
    ensures |r| <= |contacts|
    ensures forall c :: c in r <==> c in contacts && c.idUser == userId && c.storage == GlobalStorage
  {
    if contacts == [] then []
    else
      var rest := UserGlobalContacts(contacts[1..], userId);
      assert forall c :: c in contacts <==> c == contacts[0] || c in contacts[1..];
      if contacts[0].idUser == userId && contacts[0].storage == GlobalStorage then [contacts[0]] + rest else rest
  }

  /** onBeforeDeleteEntity: the id of the contact to delete, if any. A user entity is
      deleted together with their global contact only when exactly one is found;
      `hasContacts` says whether the contacts module is available. */
  function DeleteEntityTarget(entityType: string, entityId: int, hasContacts: bool,
                              contacts: seq<LegacyContact>): (r: Option<int>)
    ensures r.Some? <==> entityType == "User" && hasContacts && |UserGlobalContacts(contacts, entityId)| == 1
    ensures r.Some? ==> exists c :: c in contacts && c.id == r.value && c.idUser == entityId && c.storage == GlobalStorage
    ensures r.Some? ==> forall c :: c in contacts && c.idUser == entityId && c.storage == GlobalStorage ==> c.id == r.value
  {
    if entityType == "User" && hasContacts then
      var userContacts := UserGlobalContacts(contacts, entityId);
      if |userContacts| == 1 then
        assert userContacts[0] in userContacts;
        Some(userContacts[0].id)
      else None
    else None
  }

  /** The listing keeps every global contact of the user as many times as it occurs, and
      no other contact. */
  lemma {:induction false} UserGlobalContactsCount(contacts: seq<LegacyContact>, userId: int)
    ensures forall c :: multiset(UserGlobalContacts(contacts, userId))[c] ==
              (if c.idUser == userId && c.storage == GlobalStorage then multiset(contacts)[c] else 0)
  {
    if contacts != [] {
      UserGlobalContactsCount(contacts[1..], userId);
      assert contacts == [contacts[0]] + contacts[1..];
    }
  }

  /** A user with exactly one global contact in the listing (at position i) has that
      contact deleted together with the user, wherever it sits in the listing. */
  lemma SingleGlobalContactIsDeleted(contacts: seq<LegacyContact>, userId: int, i: nat)
    requires i < |contacts| && contacts[i].idUser == userId && contacts[i].storage == GlobalStorage
    requires forall j :: 0 <= j < |contacts| && j != i ==>
               !(contacts[j].idUser == userId && contacts[j].storage == GlobalStorage)
    ensures DeleteEntityTarget("User", userId, true, contacts) == Some(contacts[i].id)
  {
    var x := contacts[i];
    var r := UserGlobalContacts(contacts, userId);
    assert contacts == contacts[..i] + [x] + contacts[i + 1..];
    UserGlobalContactsCount(contacts, userId);
    assert x !in contacts[..i];
    assert x !in contacts[i + 1..];
    assert multiset(contacts)[x] == 1;
    assert multiset(r) == multiset{x};
    assert |r| == |multiset(r)| == 1;
    assert r[0] in r;
  }

  // ---------------------------------------------------------------------------
  // onAfterCreateUser

  datatype PrimaryEmail = Personal | Business | Other

  /** The contact the hook asks the contacts module to create, and for which owner. */
  datatype NewContact = NewContact(storage: string, primaryEmail: PrimaryEmail, businessEmail: string)

  datatype CreateRequest = NoContact | CreateContact(contact: NewContact, ownerId: int)

  /** onAfterCreateUser: a positive new user id (and an available contacts module) gives
      a global contact whose business e-mail is the user's public id; otherwise the hook
      returns false. */
  function AfterCreateUser(newUserId: Option<int>, publicId: string, hasContacts: bool): (r: CreateRequest)
    ensures r.CreateContact? <==> newUserId.Some? && newUserId.value > 0 && hasContacts
    ensures r.CreateContact? ==>
              r.ownerId == newUserId.value && r.contact.storage == GlobalStorage &&
              r.contact.primaryEmail == Business && r.contact.businessEmail == publicId
  {
    var userId := if newUserId.Some? && newUserId.value > 0 then newUserId.value else 0;
    if 0 < userId && hasContacts then
      CreateContact(NewContact(GlobalStorage, Business, publicId), userId)
    else NoContact
  }

  /** A contact created for a new user is exactly what a later deletion of that user
      finds and removes, as long as it is the user's only global contact. */
  lemma CreatedContactIsDeletedWithUser(userId: int, publicId: string, contactId: int,
                                        others: seq<LegacyContact>)
    requires userId > 0
    requires forall c :: c in others ==> !(c.idUser == userId && c.storage == GlobalStorage)
    ensures var req := AfterCreateUser(Some(userId), publicId, true);
            var stored := LegacyContact(contactId, req.ownerId, req.contact.storage);
            DeleteEntityTarget("User", userId, true, others + [stored]) == Some(contactId)
  {
    var stored := LegacyContact(contactId, userId, GlobalStorage);
    UserGlobalContactsAppend(others, stored, userId);
    NoMatchFiltersToEmpty(others, userId);
    assert UserGlobalContacts(others + [stored], userId) == [stored];
  }

  lemma NoMatchFiltersToEmpty(s: seq<LegacyContact>, userId: int)
    requires forall c :: c in s ==> !(c.idUser == userId && c.storage == GlobalStorage)
    ensures UserGlobalContacts(s, userId) == []
  {
  }

  /** Filtering a list with one more contact at the end filters that contact last. */
  lemma {:induction false} UserGlobalContactsAppend(s: seq<LegacyContact>, x: LegacyContact, userId: int)
    ensures UserGlobalContacts(s + [x], userId) ==
            UserGlobalContacts(s, userId) + (if x.idUser == userId && x.storage == GlobalStorage then [x] else [])
  {
    if s != [] {
      assert (s + [x])[1..] == s[1..] + [x];
      UserGlobalContactsAppend(s[1..], x, userId);
    }
  }
}

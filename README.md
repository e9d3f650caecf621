# Team contacts: a Dafny model

This project models the decision and rewriting logic of the TeamContacts module of a
multi-tenant contacts platform. Each tenant has one organisation-wide "team" address
book. It is a CardDAV book with the uri `gab` that belongs to a principal derived from
the tenant id. Each user of the tenant has a card in it that carries the user's e-mail;
this is the user's "self contact". The module hooks into the platform's contact events.
It decides who may write the team book and its contacts. It marks team entries of
contact lists as `ReadOnly` or `ItsMe`. It folds the team book into contact queries. It
creates and removes self contacts as users come and go. The earlier global-contacts
variant (`module.php`) is modelled too. In that variant team contacts are ordinary
contacts with storage `global`, scoped to a tenant by a filter.

Modules, by file:

- `common.dfy` (`Common`): users, roles, the located team book, and PHP value
  conventions. A null team-book id compares equal to 0. Only `""` and `"0"` are false
  strings.
- `access.dfy` (`TeamAccess`): the address-book and contact access hooks, the update
  gate, and the ban on editing the team book.
- `annotation.dfy` (`Annotation`): list and single-contact annotation, the contact
  object class, the e-mail restore on update, and the identity-column reconciliation
  of the federated collection.
- `query.dfy` (`Query`): the card-id filter, the storage-argument rewrite, query
  federation, the address-book list entry, and the group e-mail formatter.
- `store.dfy` (`Store`): the class `TeamContactsModule`. It holds the CardDAV store as
  a map from principal to book plus a set of cards, and the two fields that carry a
  deleted user from the before-hook to the after-hook. It also holds locate-or-create
  and the self-contact lifecycle.
- `legacy.dfy` (`GlobalContacts`): the `module.php` hooks.

Treatment of calls out of the core:

- Most hooks call `GetTeamAddressbook`, which may create the book. The pure part of such
  a hook takes that call's result as a parameter `team`. The call itself is
  `Store.TeamContactsModule.GetTeamAddressbook`, specified by `Store.Locate`. Some hooks
  never call it: onBeforeUpdateAddressBook (`Module.php:413-419`), onGetContactsCollection
  (`Module.php:457-467`), onAfterGetStoragesMapToAddressbooks, and onAfterDeleteUser,
  which uses the book remembered by the before-hook (`Module.php:323-338`). Most others
  call it only behind the hook's own guard. onBeforeUpdateContactObject calls it only for a
  `gab` contact, after the e-mail restore (`Module.php:398`). onAfterCreateUser calls it
  only for a positive id (`Module.php:145`).
- The identity platform is passed in as plain values. `getUserById` becomes a map
  `users`. The authenticated user becomes a `User` value. `isAdmin()` becomes the
  field `User.isAdmin`.
- Backend outcomes are boolean parameters. `createOk` says whether
  `createAddressBook` succeeds; `cardOk` says whether `createCard` succeeds. The book
  uri and the stored e-mail that `getAddressBookById` and `ContactCard::firstWhere`
  return are `Option` parameters.
- The platform setting `AllowEditTeamContactsByTenantAdmins` is the parameter
  `allowEdit`.

Where the code and the intended design of the feature disagree, the model follows the code:

- The contact access hook (`Module.php:367-378`) checks neither the tenant nor the
  `ReadOnly` flag.
- The update gate (`Module.php:400-408`) ignores the tenant-admin option. It trusts
  the `ReadOnly` flag that arrives with the contact.
- Server initialisation (`Module.php:246-261`) backfills only the session user, and
  only when that user is a normal user. It does not scan all users of the tenant.

The code reads the caller's role through two property names. `UserRole` is used at
`Module.php:346`, `Module.php:347` and `Module.php:368`. `Role` is used at
`Module.php:208`, `Module.php:232`, `Module.php:249`, `Module.php:370`,
`Module.php:400` and `Module.php:401`. The model has one field, `User.role`, for both.
If the platform's user object had no `UserRole` property, the checks at 346, 347 and
368 would read null. Then the super-admin bypass at 346 and 368 would never fire, and
tenant admins would never get write access through the check at 347.

## Model

| member | source | states |
|---|---|---|
| TeamAccess.CheckAccessToAddressBook | Module.php:340-358 | The rule applies only when the caller, the book id and the located team book are all given and the ids match. Then the hook stops propagation. Access is granted iff it is not a write, or the caller is a super admin, or the caller is a tenant admin with the option on. For any other book the earlier result is kept and propagation continues. |
| TeamAccess.CheckAccessToObject | Module.php:360-381 | For a contact of the caller's team book (a missing book counts as id 0), the hook stops propagation. Access is granted iff it is not a write, or the caller is a super admin, or the contact's ItsMe flag is set, or the caller is a tenant admin with the option on. Otherwise the earlier result is kept. |
| TeamAccess.UpdateGate | Module.php:400-408 | The update proceeds iff the caller is a super admin, or ItsMe is set, or the caller is a tenant admin and the contact is not ReadOnly and sits in the caller's team book. Otherwise AccessDenied. |
| TeamAccess.UpdateAddressBookGate | Module.php:413-419 | An update of a book is denied iff the book exists and its uri is `gab`, whatever the caller's role. |
| TeamAccess.OptionOnlyWidensAccess | Module.php:346-351 | For both access hooks, turning the tenant-admin option on never takes away access that was granted with it off. |
| TeamAccess.BookWriteGrantsContactWrite | Module.php:346-374 | A caller allowed to write the team book is allowed to write every contact in it. |
| TeamAccess.TenantAdminDependsOnOption | Module.php:368-374 | A tenant admin may write a team contact only if it is their own when the option is off, and may write every team contact when it is on. |
| Annotation.AnnotateEntry | Module.php:206-219 | A non-team entry comes back unchanged. A team entry always gets ReadOnly. ReadOnly is true iff the entry is not the fetched user's own and the caller is neither an admin nor a same-tenant tenant admin with the option on. The user's own entry gets ItsMe = true. No other field changes. |
| Annotation.AnnotatedListMeaning | Module.php:206-219 | The length is kept and non-team entries are unchanged. Team entries of other users are ReadOnly exactly when the caller is not an editor. The user's own team entry is writable and marked ItsMe. |
| Annotation.OnAfterGetContacts | Module.php:198-222 | The in-place loop leaves the list equal to the annotated list when both the user and the team book were found. Otherwise the list is untouched. |
| Annotation.AnnotateContact | Module.php:229-239 | A team contact takes the team book's tenant. It gets ItsMe iff its business e-mail is the caller's public id. Otherwise it gets ReadOnly = true unless the caller is an admin or a tenant admin of that tenant with the option on. An existing flag is never cleared. |
| Annotation.OnAfterGetContact | Module.php:224-241 | The contact object is annotated in place when it is in the caller's team book. Otherwise it is unchanged. |
| Annotation.OwnContactPassesUpdateGate | Module.php:234-235 | After single-contact annotation, the caller's own team contact passes the update gate. |
| Annotation.OthersContactFailsUpdateGate | Module.php:236-237 | After single-contact annotation, a normal user's view of someone else's team contact that did not already carry ItsMe is ReadOnly and is refused by the update gate. |
| Annotation.RestoredEmail | Module.php:392-397 | When a stored version exists, the resulting e-mail is the stored one, whatever was requested. Otherwise it is the requested one. |
| Annotation.OnBeforeUpdateContactObject | Module.php:383-411 | For a `gab` contact the object's BusinessEmail is reset to the stored value and nothing else changes. The result is the update gate's verdict on the flags the contact carries. Any other request proceeds and leaves the contact unchanged. |
| Annotation.ReconcileRow | Module.php:461-464 | A team row with a non-zero TeamUserId takes it as its UserId. Every row loses TeamUserId. IsTeam is kept. |
| Annotation.OnGetContactsCollection | Module.php:457-467 | Each collection row is reconciled in place. |
| Query.UuidFilter | Module.php:303-311 | An empty array becomes `[null]`, a non-empty array is used as given, and a scalar becomes an equality. A card id passes iff it is listed, or equals the scalar (`null` matches nothing). |
| Query.ContactQueryBranch | Module.php:298-313 | The branch selects a card iff a team book was located, the card is in it, and the card id passes the UUID filter. |
| Query.EmptyUuidArraySelectsNothing | Module.php:305-308 | An empty UUID array selects no card at all. |
| Query.UuidArraySelectsListed | Module.php:303-308 | A UUID array selects exactly the listed cards of the team book. |
| Query.FirstSegment | Module.php:284-285 | The first element of `explode('-', s)`: a prefix of s with no `-`, which is either all of s or followed by a `-`. |
| Query.FirstSegmentIsTeam | Module.php:284-285 | The first segment is `team` iff the storage is `team` or starts with `team-`. |
| Query.PopulateContactArguments | Module.php:281-296 | When storage and user id are set, the first segment is `team` and a team book was located, the storage becomes `team`, AddressBookId becomes the team book's id, and the result is true. Otherwise the arguments and result are unchanged. |
| Query.TeamSuffixedStorageIsRewritten | Module.php:283-293 | A `team-<anything>` storage is rewritten to `team` with the team book's id. |
| Query.PrepareFiltersFromStorage | Module.php:173-196 | Only the `team` and `all` scopes are touched. They set IsValid, and when the team book was located they append exactly one disjunct for it. Other scopes leave both untouched. |
| Query.FederatedQuerySelectsUnion | Module.php:193 | In the team or all scope, the federated query selects a row iff the base query did or the row's card is in the team book. |
| Query.TeamBookEntry | Module.php:105-114 | The team entry's id is a storage name whose first segment is `team`, so the storage rewrite routes it back to the team book. Its entity id, CTag, display name, uri and url are those of the located book, and it is displayed. |
| Query.AddressBooksWithTeam | Module.php:94-116 | A non-array result starts empty. Existing entries are kept. Exactly one `team` entry for the located book is appended, and none when there is no book. |
| Query.FormatAddress | Module.php:436-440 | With a name PHP does not consider empty, the result is `"` name `"<` email `>`. Otherwise it is the bare e-mail. |
| Query.GroupContactsEmails | Module.php:426-455 | The result is replaced iff user, group and team book are all present. For the all-members group, address k is card k's name and ViewEmail formatted by `FormatAddress`. For an explicit group, address k is member k's public id, named by their team contact's name when one was found. |
| Store.PrincipalFor | Module.php:126 | The principal is `principals/`, then the tenant id in decimal, then `_dav_tenant_user`; the digits sit exactly between the two constants. |
| Store.NatToString | Module.php:126 | The tenant id in the principal is a non-empty string of decimal digits, one digit iff the id is below 10. |
| Store.NatToStringInjective | Module.php:126 | Different tenant ids give different digit strings. |
| Store.PrincipalInjective | Module.php:126 | Different tenants get different principals. |
| Store.Locate | Module.php:118-139 | With no user, nothing happens. On a hit, the stored book is returned and the store is unchanged. On a miss, a `gab` book is created only if the backend accepts it, and is then read back. The result carries the user's tenant. |
| Store.LocatePreservesValid | Module.php:126-131 | Locate-or-create keeps every book a `gab` book with a unique id. |
| Store.LocateCreatesOnlyOnMiss | Module.php:127-131 | The store changes only when the tenant's principal had no book, and existing books are never altered. |
| Store.LocateIdempotent | Module.php:126-131 | Once a tenant's book is located, locating it again for any user of that tenant returns the same book and leaves the store unchanged. |
| Store.DistinctTenantsDistinctBooks | Module.php:126-127 | In a valid store, users of different tenants never get the same team book. |
| Store.CardsWithInsert | Module.php:252-255 | After a card is added, the lookup by book and e-mail gains that card exactly when it has that book and e-mail, and nothing else. |
| Store.CardsWithRemove | Module.php:324-335 | After a card is removed, the lookup by book and e-mail loses that card and nothing else. |
| Store.TeamContactsModule.GetTeamAddressbook | Module.php:118-139 | The method's new store and result are those of `Locate`, and the store invariant is kept. |
| Store.TeamContactsModule.CreateContactForUser | Module.php:141-162 | A non-positive id changes nothing and returns false. Otherwise the team book is located, and one card with the given e-mail is added iff the book exists and the card is accepted; that is also the result. |
| Store.TeamContactsModule.OnAfterCreateUser | Module.php:164-171 | For a positive new user id the store is that of `Locate` for the user, and exactly one self card with their public id is added iff the team book was located and the card accepted; otherwise the cards are unchanged. A missing or non-positive id changes nothing. |
| Store.TeamContactsModule.OnAfterDoServerInitializations | Module.php:246-261 | Only a normal user is served, and the store is that of `Locate` for them. Exactly one self card is added iff the book was located, no card of it carries the user's public id, the user id is positive and the card is accepted; otherwise the cards are unchanged. After a successful run one self card exists. |
| Store.TeamContactsModule.OnBeforeDeleteUser | Module.php:315-321 | With a user id, the user's public id and located team book are stored in the two fields. Without one, the fields keep their earlier values. |
| Store.TeamContactsModule.OnAfterDeleteUser | Module.php:323-338 | Only after a successful deletion with both remembered values present is one matching card of the remembered book removed, if any exists. A single matching card leaves no match. |
| Store.DeleteUserScenario | Module.php:315-338 | If a user has exactly one self card, the before-hook, deletion and after-hook together leave no card with their public id in their team book. |
| GlobalContacts.OnGetStorage | module.php:14-17 | The storage list gets `global` appended and nothing else changes. |
| GlobalContacts.AugmentedFilters | module.php:61-75 | For storage `global` or `all`, a missing or non-array Filters starts empty. Existing entries are kept and exactly one `$AND {IdTenant = tenant, Storage = global}` group is appended. Other storages leave Filters untouched. |
| GlobalContacts.OnBeforeGetContacts | module.php:61-75 | The by-reference arguments end with Filters equal to `AugmentedFilters` and the storage unchanged. |
| GlobalContacts.UserGlobalContacts | module.php:45-52 | The listing holds exactly the user's contacts with storage `global`, and is no longer than the input. |
| GlobalContacts.UserGlobalContactsCount | module.php:45-52 | The listing keeps every global contact of the user as many times as it occurs in the input, and no other contact. |
| GlobalContacts.SingleGlobalContactIsDeleted | module.php:45-56 | When exactly one position of the listing holds a global contact of the user, deleting the user deletes that contact, wherever it sits. |
| GlobalContacts.DeleteEntityTarget | module.php:38-59 | A contact is deleted iff the entity is a `User`, the contacts module is there, and exactly one global contact of that user is found. The deleted id is that contact's, and no other global contact of the user exists. |
| GlobalContacts.AfterCreateUser | module.php:19-36 | A contact is requested iff the new user id is positive and the contacts module is there. It has storage `global`, primary e-mail Business, business e-mail the public id, and the new user as owner. Otherwise the hook returns false. |
| GlobalContacts.CreatedContactIsDeletedWithUser | module.php:19-56 | The contact created for a new user is the one a later deletion of that user removes, when it is their only global contact. |

## Left out

- Calls into the CardDAV backend, the SQL query builder and its joins are foreign calls. They are reduced to a book map, a card set and a disjunct list. The raw `CASE ... END as IsTeam` select, the `TeamUserId` select and the users join at Module.php:183-191 are not modelled; their columns arrive as `Row` fields.
- vCard construction and serialisation and `UUIDUtil::getUUID` produce card format and randomness. The uid is a parameter and the card keeps only its e-mail.
- `Api::CheckAccess` at Module.php:120 belongs to the identity platform; it is assumed to pass. `getUserById`, `getUserPublicIdById`, `getAuthenticatedUser` and `isAdmin()` are inputs.
- Event subscription in `init()` (Module.php:43-68, module.php:5-12) is wiring. `onGetContactSuggestions` only delegates to another module. `onAfterGetStoragesMapToAddressbooks` is a plain array merge. The empty `onAfterDoServerInitializations` of module.php:77-80 does nothing.
- Concurrency is out of scope: two requests creating the same tenant's book or the same self contact at once.
- Annotation.RestoredEmail: PHP's loose `!=` compares two numeric strings as numbers. The model compares e-mails as strings.
- Store.TeamContactsModule.OnAfterDeleteUser: SQL `first()` without ordering picks an unspecified card. The model lets it be any matching card.
- The display name of a new team book and the DAV principal constants are library constants outside the modelled files. The model fixes their values, and no property depends on them.
- Annotation.OnGetContactsCollection: rows are slots of an array rather than shared objects, so aliasing between collection rows is not modelled.
- GlobalContacts.OnBeforeGetContacts: the Filters array's keys are not modelled, only its order.
- Card uris are not required to be unique within a book, and the uid is not required to be fresh. `deleteCard(book, uri)` removes by book and uri (Module.php:335); the model removes one `Card` value, which is the same thing while UUIDs keep uris unique.
- `Store.CardsWith` is the definition of the `contacts_cards` lookup by book and ViewEmail; its properties are `Store.CardsWithInsert` and `Store.CardsWithRemove`.

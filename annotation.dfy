/** Result annotation of the team-contacts module (Module.php): the ReadOnly and ItsMe
    flags it writes into team-book entries of a contact list and into a single contact
    object, the identity-column reconciliation of the federated contact collection, and
    the update hook that puts back a team contact's stored BusinessEmail. */
module Annotation {
  import opened Common
  import TeamAccess

  // ---------------------------------------------------------------------------
  // onAfterGetContacts: list entries are PHP arrays written back by index.

  /** One entry of the `List` of a GetContacts result. Flags that the entry does not
      carry are None. */
  datatype Entry = Entry(addressBookId: Option<int>, viewEmail: string,
                         readOnly: Option<bool>, itsMe: Option<bool>)

  /** The entry belongs to the located team book. */
  predicate InTeamBook(e: Entry, team: TeamBook)
  {
    e.addressBookId == Some(team.id)
  }

  /** The caller `auth` may edit other users' team entries of the list fetched for
      `user`: an administrator, or (with the option on) a tenant administrator of the
      same tenant as `user`. */
  predicate ListEditor(user: User, auth: User, allowEdit: bool)
  {
    auth.isAdmin || (allowEdit && auth.role == TenantAdmin && user.tenantId == auth.tenantId)
  }

  /** The flags one list entry ends up with. Entries outside the team book are left as
      they are; a team entry is always given ReadOnly, the owner's entry gets ItsMe. */
  function AnnotateEntry(e: Entry, team: TeamBook, user: User, auth: User, allowEdit: bool): (r: Entry)
    ensures !InTeamBook(e, team) ==> r == e
    ensures InTeamBook(e, team) ==>
              r.addressBookId == e.addressBookId && r.viewEmail == e.viewEmail &&
              r.readOnly == Some(e.viewEmail != user.publicId && !ListEditor(user, auth, allowEdit)) &&
              r.itsMe == (if e.viewEmail == user.publicId then Some(true) else e.itsMe)
  {
    var isUserTenantAdmin := auth.role == TenantAdmin && user.tenantId == auth.tenantId;
    if e.addressBookId.Some? && e.addressBookId.value == team.id then
      var c := e.(readOnly := Some(false));
      if c.viewEmail == user.publicId then c.(itsMe := Some(true))
      else if !((allowEdit && isUserTenantAdmin) || auth.isAdmin) then c.(readOnly := Some(true))
      else c
    else e
  }

  /** The whole list after annotation, entry by entry. */
  function AnnotatedList(s: seq<Entry>, team: TeamBook, user: User, auth: User, allowEdit: bool): seq<Entry>
  {
    seq(|s|, k requires 0 <= k < |s| => AnnotateEntry(s[k], team, user, auth, allowEdit))
  }

  /** Every entry that is not in the team book comes back unchanged, and every team entry
      not owned by `user` is ReadOnly exactly when the caller is not an editor. */
  lemma AnnotatedListMeaning(s: seq<Entry>, team: TeamBook, user: User, auth: User, allowEdit: bool, k: nat)
    requires k < |s|
    ensures var r := AnnotatedList(s, team, user, auth, allowEdit);
            |r| == |s| &&
            (!InTeamBook(s[k], team) ==> r[k] == s[k]) &&
            (InTeamBook(s[k], team) && s[k].viewEmail != user.publicId ==>
               r[k].readOnly == Some(!ListEditor(user, auth, allowEdit))) &&
            (InTeamBook(s[k], team) && s[k].viewEmail == user.publicId ==>
               r[k].readOnly == Some(false) && r[k].itsMe == Some(true))
  {
  }

  /** onAfterGetContacts. `list` is null when the result or its List is not an array;
      `user` is the user the list was fetched for and `auth` the authenticated caller.
      The list is annotated only when both the user and the team book were found. */
  method OnAfterGetContacts(list: array?<Entry>, user: Option<User>, team: Option<TeamBook>,
                            auth: User, allowEdit: bool)
    modifies list
    ensures list != null && user.Some? && team.Some? ==>
              list[..] == AnnotatedList(old(list[..]), team.value, user.value, auth, allowEdit)
    ensures list != null && !(user.Some? && team.Some?) ==> list[..] == old(list[..])
  {
    if list != null && user.Some? && team.Some? {
      var i := 0;
      while i < list.Length
        invariant 0 <= i <= list.Length
        invariant forall k :: 0 <= k < i ==>
                    list[k] == AnnotateEntry(old(list[k]), team.value, user.value, auth, allowEdit)
        invariant forall k :: i <= k < list.Length ==> list[k] == old(list[k])
      {
        var e := list[i];
        if e.addressBookId.Some? && e.addressBookId.value == team.value.id {
          e := e.(readOnly := Some(false));
          if e.viewEmail == user.value.publicId {
            e := e.(itsMe := Some(true));
          } else if !((allowEdit && auth.role == TenantAdmin && user.value.tenantId == auth.tenantId) || auth.isAdmin) {
            e := e.(readOnly := Some(true));
          }
          list[i] := e;
        }
        i := i + 1;
      }
      assert list[..] == AnnotatedList(old(list[..]), team.value, user.value, auth, allowEdit);
    }
  }

  // ---------------------------------------------------------------------------
  // Contact objects: onAfterGetContact and onBeforeUpdateContactObject mutate them.

  /** The value of a contact object's fields the hooks read and write. */
  datatype ContactView = ContactView(id: int, addressBookId: int, idTenant: int, businessEmail: string,
                                     itsMe: Option<bool>, readOnly: Option<bool>)

  /** A contact object handed to the hooks by reference. `itsMe` and `readOnly` stand for
      the entries of its ExtendedInformation. */
  class ContactObject {
    var id: int
    var addressBookId: int
    var idTenant: int
    var businessEmail: string
    var itsMe: Option<bool>
    var readOnly: Option<bool>

    constructor (v: ContactView)
      ensures View() == v
    {
      id, addressBookId, idTenant, businessEmail := v.id, v.addressBookId, v.idTenant, v.businessEmail;
      itsMe, readOnly := v.itsMe, v.readOnly;
    }

    function View(): ContactView
      reads this
    {
      ContactView(id, addressBookId, idTenant, businessEmail, itsMe, readOnly)
    }
  }

  /** PHP reads an ExtendedInformation flag as isset(...) && value. */
  predicate FlagSet(f: Option<bool>)
  {
    f == Some(true)
  }

  /** The caller may edit a single team contact: an administrator, or (with the option
      on) a tenant administrator of the contact's tenant. */
  predicate ContactEditor(auth: User, contactTenant: int, allowEdit: bool)
  {
    auth.isAdmin || (allowEdit && auth.role == TenantAdmin && contactTenant == auth.tenantId)
  }

  /** What onAfterGetContact makes of a team contact: it takes the team book's tenant, is
      marked ItsMe when it is the caller's own, and otherwise is marked ReadOnly unless the
      caller is an editor. A ReadOnly flag already present is never cleared. */
  function AnnotateContact(v: ContactView, team: TeamBook, auth: User, allowEdit: bool): (r: ContactView)
    requires v.addressBookId == team.id
    ensures r.id == v.id && r.addressBookId == v.addressBookId && r.businessEmail == v.businessEmail
    ensures r.idTenant == team.tenantId
    ensures r.itsMe == (if v.businessEmail == auth.publicId then Some(true) else v.itsMe)
    ensures r.readOnly == (if v.businessEmail != auth.publicId && !ContactEditor(auth, team.tenantId, allowEdit)
                           then Some(true) else v.readOnly)
  {
    var c := v.(idTenant := team.tenantId);
    if c.businessEmail == auth.publicId then c.(itsMe := Some(true))
    else if !((allowEdit && auth.role == TenantAdmin && c.idTenant == auth.tenantId) || auth.isAdmin) then
      c.(readOnly := Some(true))
    else c
  }

  /** onAfterGetContact. `contact` is null when the result holds no contact; only contacts
      of the caller's team book are touched. */
  method OnAfterGetContact(contact: ContactObject?, team: Option<TeamBook>, auth: User, allowEdit: bool)
    modifies contact
    ensures contact != null && team.Some? && old(contact.addressBookId) == team.value.id ==>
              contact.View() == AnnotateContact(old(contact.View()), team.value, auth, allowEdit)
    ensures contact != null && !(team.Some? && old(contact.addressBookId) == team.value.id) ==>
              contact.View() == old(contact.View())
  {
    if team.Some? && contact != null && contact.addressBookId == team.value.id {
      contact.idTenant := team.value.tenantId;
      var isUserTenantAdmin := auth.role == TenantAdmin;
      var isContactInTenant := contact.idTenant == auth.tenantId;
      if contact.businessEmail == auth.publicId {
        contact.itsMe := Some(true);
      } else if !((allowEdit && isUserTenantAdmin && isContactInTenant) || auth.isAdmin) {
        contact.readOnly := Some(true);
      }
    }
  }

  /** A contact annotated by onAfterGetContact and then offered for update passes the
      update gate whenever it was the caller's own. */
  lemma OwnContactPassesUpdateGate(v: ContactView, team: TeamBook, auth: User, allowEdit: bool)
    requires v.addressBookId == team.id && v.businessEmail == auth.publicId
    ensures var r := AnnotateContact(v, team, auth, allowEdit);
            TeamAccess.UpdateGate(auth, Some(team), r.addressBookId, FlagSet(r.itsMe), FlagSet(r.readOnly)) == TeamAccess.Proceed
  {
  }

  /** A normal user's annotated view of someone else's team contact fails the update
      gate unless the contact already carried ItsMe. */
  lemma OthersContactFailsUpdateGate(v: ContactView, team: TeamBook, auth: User, allowEdit: bool)
    requires v.addressBookId == team.id && v.businessEmail != auth.publicId
    requires auth.role == NormalUser && !auth.isAdmin && !FlagSet(v.itsMe)
    ensures var r := AnnotateContact(v, team, auth, allowEdit);
            r.readOnly == Some(true) &&
            TeamAccess.UpdateGate(auth, Some(team), r.addressBookId, FlagSet(r.itsMe), FlagSet(r.readOnly)) == TeamAccess.AccessDenied
  {
  }

  /** The BusinessEmail an update of a 'gab' contact is left with: the stored value when
      there is a stored version of the contact, the requested one otherwise. Email is the
      key that joins a team contact to its user, so it cannot be changed. */
  function RestoredEmail(requested: string, stored: Option<string>): (e: string)
    ensures stored.Some? ==> e == stored.value
    ensures stored.None? ==> e == requested
  {
    if stored.Some? && requested != stored.value then stored.value else requested
  }

  /** onBeforeUpdateContactObject. `bookUri` is the uri of the contact's address book
      (None when there is none), `stored` the BusinessEmail of the stored version of the
      contact (None when there is none), `team` the caller's located team book. For a
      'gab' contact the email is put back first and the gate is evaluated after, so the
      object keeps the stored email even when the update is then refused. */
  method OnBeforeUpdateContactObject(user: Option<User>, contact: ContactObject?, bookUri: Option<string>,
                                     stored: Option<string>, team: Option<TeamBook>)
    returns (g: TeamAccess.Gate)
    modifies contact
    ensures contact != null && user.Some? && bookUri == Some(TeamBookUri) ==>
              contact.View() == old(contact.View()).(businessEmail := RestoredEmail(old(contact.businessEmail), stored)) &&
              g == TeamAccess.UpdateGate(user.value, team, contact.addressBookId,
                                         FlagSet(contact.itsMe), FlagSet(contact.readOnly))
    ensures !(contact != null && user.Some? && bookUri == Some(TeamBookUri)) ==>
              g == TeamAccess.Proceed && (contact != null ==> contact.View() == old(contact.View()))
  {
    g := TeamAccess.Proceed;
    if user.Some? && contact != null {
      if bookUri.Some? && bookUri.value == TeamBookUri {
        if stored.Some? && contact.businessEmail != stored.value {
          contact.businessEmail := stored.value;
        }
        var isSuperAdmin := user.value.role == SuperAdmin;
        var isTenant := user.value.role == TenantAdmin;
        var isCorrectTeamAddressbook := TeamIdMatches(team, contact.addressBookId);
        var isItsMe := FlagSet(contact.itsMe);
        var isReadOnly := FlagSet(contact.readOnly);
        if !(isSuperAdmin || (isTenant && !isReadOnly && isCorrectTeamAddressbook) || isItsMe) {
          g := TeamAccess.AccessDenied;
        }
      }
    }
  }

  // ---------------------------------------------------------------------------
  // onGetContactsCollection: each row object of the federated collection is mutated.

  /** One row of the federated contact collection: whether it came from the team book
      (the IsTeam column), its UserId, and the TeamUserId column joined in from the users
      table (None once unset, or when the join found no user). */
  datatype Row = Row(isTeam: bool, userId: int, teamUserId: Option<int>)

  /** The TeamUserId column holds a user id PHP considers true (not null, not 0). */
  predicate HasTeamUser(r: Row)
  {
    r.teamUserId.Some? && r.teamUserId.value != 0
  }

  /** A team row takes the linked platform user's id; every row loses TeamUserId. */
  function ReconcileRow(r: Row): (o: Row)
    ensures o.teamUserId == None && o.isTeam == r.isTeam
    ensures o.userId == (if r.isTeam && HasTeamUser(r) then r.teamUserId.value else r.userId)
  {
    var c := if r.isTeam && HasTeamUser(r) then r.(userId := r.teamUserId.value) else r;
    c.(teamUserId := None)
  }

  /** onGetContactsCollection; `rows` is null when there is no collection. */
  method OnGetContactsCollection(rows: array?<Row>)
    modifies rows
    ensures rows != null ==> forall k :: 0 <= k < rows.Length ==> rows[k] == ReconcileRow(old(rows[k]))
  {
    if rows != null {
      var i := 0;
      while i < rows.Length
        invariant 0 <= i <= rows.Length
        invariant forall k :: 0 <= k < i ==> rows[k] == ReconcileRow(old(rows[k]))
        invariant forall k :: i <= k < rows.Length ==> rows[k] == old(rows[k])
      {
        var contact := rows[i];
        if contact.isTeam && contact.teamUserId.Some? && contact.teamUserId.value != 0 {
          contact := contact.(userId := contact.teamUserId.value);
        }
        rows[i] := contact.(teamUserId := None);
        i := i + 1;
      }
    }
  }
}

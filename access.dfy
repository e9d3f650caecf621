/** The access decisions of the team-contacts module (Module.php): who may write the
    team address book, who may write a contact in it, the gate that refuses a
    contact update, and the ban on editing the team book itself. The two access hooks
    locate the caller's team book, and the update gate does so only for a 'gab' contact,
    after the e-mail restore; that step is Store.TeamContactsModule.GetTeamAddressbook, and
    its result is passed in here as `team`. The address-book gate does not locate it. */
module TeamAccess {
  import opened Common

  /** What an "after" access hook leaves behind: the access result, and whether the
      hook returned true (which stops the platform from asking further handlers). */
  datatype HookResult = HookResult(result: bool, handled: bool)

  /** Outcome of a "before" hook that may throw AccessDenied. */
  datatype Gate = Proceed | AccessDenied

  /** Reference rule for writing the team book: super administrators always, tenant
      administrators when the tenant-admin option is on, nobody else. */
  predicate MayWriteTeamBook(role: Role, allowEdit: bool)
  {
    role == SuperAdmin || TenantAdminMayEdit(role, allowEdit)
  }

  /** Reference rule for writing a team contact: the book rule, or the contact is the
      caller's own (its ItsMe flag is set). */
  predicate MayWriteTeamContact(role: Role, allowEdit: bool, itsMe: bool)
  {
    MayWriteTeamBook(role, allowEdit) || itsMe
  }

  /** The request names the caller's own team book. */
  predicate IsTeamBookRequest(user: Option<User>, bookId: Option<int>, team: Option<TeamBook>)
  {
    user.Some? && bookId.Some? && team.Some? && team.value.id == bookId.value
  }

  /** onAfterCheckAccessToAddressBook: decides access to the team book and leaves the
      result of earlier handlers untouched for any other book. */
  function CheckAccessToAddressBook(user: Option<User>, bookId: Option<int>, team: Option<TeamBook>,
                                    access: Access, allowEdit: bool, prior: bool): (r: HookResult)
    ensures IsTeamBookRequest(user, bookId, team) ==>
              r.handled && (r.result <==> access != Write || MayWriteTeamBook(user.value.role, allowEdit))
    ensures !IsTeamBookRequest(user, bookId, team) ==> r == HookResult(prior, false)
  {
    if user.Some? && bookId.Some? && team.Some? && team.value.id == bookId.value then
      if access == Write && user.value.role != SuperAdmin then
        if user.value.role == TenantAdmin && allowEdit then HookResult(true, true)
        else HookResult(false, true)
      else HookResult(true, true)
    else HookResult(prior, false)
  }

  /** The parts of a contact object the object access hook reads. */
  datatype ContactRef = ContactRef(addressBookId: int, itsMe: bool)

  /** The request is about a contact of the caller's team book (null book id rules apply). */
  predicate IsTeamContactRequest(user: Option<User>, contact: Option<ContactRef>, team: Option<TeamBook>)
  {
    user.Some? && contact.Some? && TeamIdMatches(team, contact.value.addressBookId)
  }

  /** onAfterCheckAccessToObject: decides access to a team contact and leaves every
      other contact to earlier handlers. Unlike the update gate it does not look at
      tenants or at the ReadOnly flag. */
  function CheckAccessToObject(user: Option<User>, contact: Option<ContactRef>, team: Option<TeamBook>,
                               access: Access, allowEdit: bool, prior: bool): (r: HookResult)
    ensures IsTeamContactRequest(user, contact, team) ==>
              r.handled &&
              (r.result <==> access != Write || MayWriteTeamContact(user.value.role, allowEdit, contact.value.itsMe))
    ensures !IsTeamContactRequest(user, contact, team) ==> r == HookResult(prior, false)
  {
    if user.Some? && contact.Some? && TeamIdMatches(team, contact.value.addressBookId) then
      if access == Write && user.value.role != SuperAdmin then
        if contact.value.itsMe || (user.value.role == TenantAdmin && allowEdit) then HookResult(true, true)
        else HookResult(false, true)
      else HookResult(true, true)
    else HookResult(prior, false)
  }

  /** The condition under which onBeforeUpdateContactObject lets an update of a 'gab'
      contact through: a super administrator, the caller's own contact, or a tenant
      administrator on a contact not marked ReadOnly that sits in the caller's team
      book. The tenant-admin option is not consulted here. */
  function UpdateGate(user: User, team: Option<TeamBook>, contactBookId: int,
                      itsMe: bool, readOnly: bool): (g: Gate)
    ensures g == Proceed <==>
              user.role == SuperAdmin || itsMe ||
              (user.role == TenantAdmin && !readOnly && TeamIdMatches(team, contactBookId))
  {
    var isSuperAdmin := user.role == SuperAdmin;
    var isTenant := user.role == TenantAdmin;
    var isCorrectTeamAddressbook := TeamIdMatches(team, contactBookId);
    if !(isSuperAdmin || (isTenant && !readOnly && isCorrectTeamAddressbook) || itsMe) then AccessDenied
    else Proceed
  }

  /** onBeforeUpdateAddressBook: `bookUri` is the uri of the book being updated, None
      when no book has that id. The team book may never be edited, whoever asks. */
  function UpdateAddressBookGate(bookUri: Option<string>): (g: Gate)
    ensures g == AccessDenied <==> bookUri == Some(TeamBookUri)
  {
    if bookUri.Some? && bookUri.value == TeamBookUri then AccessDenied else Proceed
  }

  /** Turning the tenant-admin option on never takes away access that either hook
      granted with the option off. */
  lemma OptionOnlyWidensAccess(user: Option<User>, bookId: Option<int>, contact: Option<ContactRef>,
                               team: Option<TeamBook>, access: Access, prior: bool)
    ensures CheckAccessToAddressBook(user, bookId, team, access, false, prior).result ==>
            CheckAccessToAddressBook(user, bookId, team, access, true, prior).result
    ensures CheckAccessToObject(user, contact, team, access, false, prior).result ==>
            CheckAccessToObject(user, contact, team, access, true, prior).result
  {
  }

  /** A caller allowed to write the team book is allowed to write every contact in it. */
  lemma BookWriteGrantsContactWrite(user: User, team: TeamBook, contact: ContactRef,
                                    allowEdit: bool, prior1: bool, prior2: bool)
    requires contact.addressBookId == team.id
    requires CheckAccessToAddressBook(Some(user), Some(team.id), Some(team), Write, allowEdit, prior1).result
    ensures CheckAccessToObject(Some(user), Some(contact), Some(team), Write, allowEdit, prior2).result
  {
  }

  /** A tenant administrator with the option off may write only their own team contact,
      and with the option on may write any team contact. */
  lemma TenantAdminDependsOnOption(user: User, team: TeamBook, contact: ContactRef, prior: bool)
    requires user.role == TenantAdmin && contact.addressBookId == team.id
    ensures CheckAccessToObject(Some(user), Some(contact), Some(team), Write, false, prior).result == contact.itsMe
    ensures CheckAccessToObject(Some(user), Some(contact), Some(team), Write, true, prior).result
  {
  }
}

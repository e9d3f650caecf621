/** Types shared by every part of the team-contacts model: the users the identity
    platform hands to the hooks, the located team address book, and the few PHP
    value conventions (null ids, truthy strings) the hooks depend on. */
module Common {

  datatype Option<+T> = None | Some(value: T)

  /** Roles of the host platform's users. */
  datatype Role = SuperAdmin | TenantAdmin | NormalUser | Customer | Anonymous

  /** The access a caller asks for; every kind other than Write is treated like Read. */
  datatype Access = Read | Write

  /** A platform user as the identity platform reports it. `isAdmin` is the answer of
      the user object's own isAdmin() query, which the hooks consult separately from
      the role. */
  datatype User = User(id: int, tenantId: nat, role: Role, publicId: string, isAdmin: bool)

  /** The team address book of a tenant as GetTeamAddressbook returns it: the stored
      book plus the tenant id the locator attaches. */
  datatype TeamBook = TeamBook(id: int, uri: string, displayName: string, syncToken: int, tenantId: nat)

  /** Storage names used by the contacts platform. */
  const TeamStorage: string := "team"
  const AllStorage: string := "all"

  /** The uri every tenant's team address book is stored under. */
  const TeamBookUri: string := "gab"

  /** Whether the id of a contact's or a request's address book equals the id of the
      located team book. When no team book was located the PHP code reads the id of
      `false`, which is null, and null compares equal to 0 (also after an int cast). */
  predicate TeamIdMatches(team: Option<TeamBook>, bookId: int)
  {
    match team
    case Some(b) => b.id == bookId
    case None => bookId == 0
  }

  /** PHP truthiness of a string: only "" and "0" are false. */
  predicate Truthy(s: string)
  {
    s != "" && s != "0"
  }

  /** A caller that may edit every team contact because of the tenant-admin option. */
  predicate TenantAdminMayEdit(role: Role, allowEdit: bool)
  {
    role == TenantAdmin && allowEdit
  }
}

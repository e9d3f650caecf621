/** The stateful part of the team-contacts module (Module.php): locating or creating a
    tenant's team address book, creating a user's own team contact on user creation and
    at server initialisation, and removing it when the user is deleted. The CardDAV
    backend is a map from principal to the stored 'gab' book and a set of cards. */
module Store {
  import opened Common

  /** The DAV library's principal prefix and tenant-principal name. */
  const PrincipalsPrefix: string := "principals/"
  const TenantPrincipal: string := "dav_tenant_user"

  /** Display name the team book is created with. */
  const TeamDisplayName: string := "Team"

  /** Sync token of a freshly created book. */
  const InitialSyncToken: int := 1

  function DigitChar(d: nat): (c: char)
    requires d < 10
    ensures '0' <= c <= '9'
  {
    "0123456789"[d]
  }

  /** Decimal digits of a natural number, as PHP writes an integer into a string. */
  function NatToString(n: nat): (s: string)
    ensures |s| >= 1
    ensures forall k :: 0 <= k < |s| ==> '0' <= s[k] <= '9'
    ensures (n < 10) <==> |s| == 1
  {
    if n < 10 then [DigitChar(n)] else NatToString(n / 10) + [DigitChar(n % 10)]
  }

  lemma DigitCharInjective(a: nat, b: nat)
    requires a < 10 && b < 10 && DigitChar(a) == DigitChar(b)
    ensures a == b
  {
  }

  /** Different numbers have different decimal strings. */
  lemma {:induction false} NatToStringInjective(a: nat, b: nat)
    requires NatToString(a) == NatToString(b)
    ensures a == b
  {
    var s := NatToString(a);
    if a >= 10 {
      assert b >= 10;
      assert s[|s| - 1] == DigitChar(a % 10) == DigitChar(b % 10);
      DigitCharInjective(a % 10, b % 10);
      assert NatToString(a / 10) == s[..|s| - 1] == NatToString(b / 10);
      NatToStringInjective(a / 10, b / 10);
    } else {
      assert b < 10;
      DigitCharInjective(a, b);
    }
  }

  /** Two strings each followed by '_' and the same tail are equal. */
  lemma DigitsBeforeSeparator(da: string, db: string, tail: string)
    requires da + "_" + tail == db + "_" + tail
    ensures da == db
  {
    var t := da + "_" + tail;
    assert da == t[..|da|];
    assert db == t[..|db|];
  }

  /** The principal a tenant's team book belongs to; it depends on the tenant id only. */
  function PrincipalFor(tenantId: nat): (r: string)
    ensures |r| == |PrincipalsPrefix| + |NatToString(tenantId)| + 1 + |TenantPrincipal|
    ensures r[..|PrincipalsPrefix|] == PrincipalsPrefix
    ensures r[|PrincipalsPrefix|..|r| - |TenantPrincipal| - 1] == NatToString(tenantId)
    ensures r[|r| - |TenantPrincipal| - 1..] == "_" + TenantPrincipal
  {
    PrincipalsPrefix + NatToString(tenantId) + "_" + TenantPrincipal
  }

  /** Different tenants have different principals, so they never share a team book. */
  lemma PrincipalInjective(a: nat, b: nat)
    requires PrincipalFor(a) == PrincipalFor(b)
    ensures a == b
  {
    var p := PrincipalFor(a);
    var n := |PrincipalsPrefix|;
    var da, db := NatToString(a), NatToString(b);
    assert p[n..] == da + "_" + TenantPrincipal;
    assert PrincipalFor(b)[n..] == db + "_" + TenantPrincipal;
    DigitsBeforeSeparator(da, db, TenantPrincipal);
    NatToStringInjective(a, b);
  }

  /** A stored CardDAV address book. */
  datatype StoredBook = StoredBook(id: int, uri: string, displayName: string, syncToken: int)

  /** A stored card: its book, its uri, and the e-mail its vCard carries (the ViewEmail
      the contacts table derives from it). */
  datatype Card = Card(bookId: int, uri: string, email: string)

  /** The store after a locate-or-create and the located book. */
  datatype Located = Located(books: map<string, StoredBook>, nextBookId: int, result: Option<TeamBook>)

  function AsTeamBook(b: StoredBook, tenantId: nat): TeamBook
  {
    TeamBook(b.id, b.uri, b.displayName, b.syncToken, tenantId)
  }

  /** GetTeamAddressbook as a function of the store: the user's tenant gives the
      principal; the book found there is returned; on a miss a book is created (when the
      backend accepts the creation) and read back. `user` is the identity platform's
      answer for the requested user id. */
  function Locate(books: map<string, StoredBook>, nextBookId: int, user: Option<User>, createOk: bool): (r: Located)
    ensures user.None? ==> r == Located(books, nextBookId, None)
    ensures user.Some? ==>
              var p := PrincipalFor(user.value.tenantId);
              (p in books ==> r.books == books && r.nextBookId == nextBookId &&
                              r.result == Some(AsTeamBook(books[p], user.value.tenantId))) &&
              (p !in books && !createOk ==> r == Located(books, nextBookId, None)) &&
              (p !in books && createOk ==>
                 r.books == books[p := StoredBook(nextBookId, TeamBookUri, TeamDisplayName, InitialSyncToken)] &&
                 r.nextBookId == nextBookId + 1 &&
                 r.result == Some(TeamBook(nextBookId, TeamBookUri, TeamDisplayName, InitialSyncToken, user.value.tenantId)))
    ensures r.result.Some? ==> r.result.value.tenantId == user.value.tenantId &&
                               PrincipalFor(user.value.tenantId) in r.books &&
                               r.result.value == AsTeamBook(r.books[PrincipalFor(user.value.tenantId)], user.value.tenantId)
  {
    if user.None? then Located(books, nextBookId, None)
    else
      var p := PrincipalFor(user.value.tenantId);
      if p in books then Located(books, nextBookId, Some(AsTeamBook(books[p], user.value.tenantId)))
      else if createOk then
        var books' := books[p := StoredBook(nextBookId, TeamBookUri, TeamDisplayName, InitialSyncToken)];
        Located(books', nextBookId + 1, Some(AsTeamBook(books'[p], user.value.tenantId)))
      else Located(books, nextBookId, None)
  }

  /** The store invariant: every book is a 'gab' book with an id below the next one to
      hand out, and no two principals share a book id. */
  ghost predicate StoreValid(books: map<string, StoredBook>, nextBookId: int)
  {
    (forall p :: p in books ==> books[p].uri == TeamBookUri && books[p].id < nextBookId) &&
    (forall p, q :: p in books && q in books && p != q ==> books[p].id != books[q].id)
  }

  /** Locate-or-create keeps the store invariant. */
  lemma LocatePreservesValid(books: map<string, StoredBook>, nextBookId: int, user: Option<User>, createOk: bool)
    requires StoreValid(books, nextBookId)
    ensures var r := Locate(books, nextBookId, user, createOk); StoreValid(r.books, r.nextBookId)
  {
  }

  /** A book is created only on a miss: when the store changes, the tenant's principal
      had no book, and nothing already stored is altered. */
  lemma LocateCreatesOnlyOnMiss(books: map<string, StoredBook>, nextBookId: int, user: Option<User>, createOk: bool)
    ensures var r := Locate(books, nextBookId, user, createOk);
            (r.books != books ==> user.Some? && PrincipalFor(user.value.tenantId) !in books) &&
            books.Keys <= r.books.Keys &&
            (forall p :: p in books ==> r.books[p] == books[p])
  {
  }

  /** Once a tenant's book was located, locating again for any user of that tenant
      returns the same book and leaves the store as it is, whatever the backend would
      say to a creation. */
  lemma LocateIdempotent(books: map<string, StoredBook>, nextBookId: int, u1: User, u2: User,
                         ok1: bool, ok2: bool)
    requires u1.tenantId == u2.tenantId
    requires Locate(books, nextBookId, Some(u1), ok1).result.Some?
    ensures var r1 := Locate(books, nextBookId, Some(u1), ok1);
            Locate(r1.books, r1.nextBookId, Some(u2), ok2) == r1
  {
  }

  /** Users of different tenants never get the same team book. */
  lemma DistinctTenantsDistinctBooks(books: map<string, StoredBook>, nextBookId: int, u1: User, u2: User)
    requires StoreValid(books, nextBookId)
    requires u1.tenantId != u2.tenantId
    requires Locate(books, nextBookId, Some(u1), false).result.Some?
    requires Locate(books, nextBookId, Some(u2), false).result.Some?
    ensures Locate(books, nextBookId, Some(u1), false).result.value.id !=
            Locate(books, nextBookId, Some(u2), false).result.value.id
  {
    if PrincipalFor(u1.tenantId) == PrincipalFor(u2.tenantId) {
      PrincipalInjective(u1.tenantId, u2.tenantId);
    }
  }

  /** The cards of `bookId` that carry `email`. */
  function CardsWith(cards: set<Card>, bookId: int, email: string): set<Card>
  {
    set c | c in cards && c.bookId == bookId && c.email == email
  }

  /** Adding a card adds it to the lookup exactly when it is of that book and e-mail. */
  lemma CardsWithInsert(cards: set<Card>, c: Card, bookId: int, email: string)
    ensures CardsWith(cards + {c}, bookId, email) ==
            CardsWith(cards, bookId, email) + (if c.bookId == bookId && c.email == email then {c} else {})
  {
  }

  /** Removing a card removes it from every lookup and changes nothing else. */
  lemma CardsWithRemove(cards: set<Card>, c: Card, bookId: int, email: string)
    ensures CardsWith(cards - {c}, bookId, email) == CardsWith(cards, bookId, email) - {c}
  {
  }

  function Lookup(users: map<int, User>, id: int): Option<User>
  {
    if id in users then Some(users[id]) else None
  }

  /** The Module object: the CardDAV store it works against and the two fields that carry
      the deleted user across the delete hooks. */
  class TeamContactsModule {
    var books: map<string, StoredBook>
    var nextBookId: int
    var cards: set<Card>
    var userPublicIdToDelete: Option<string>
    var teamAddressBook: Option<TeamBook>

    ghost predicate Valid()
      reads this
    {
      StoreValid(books, nextBookId)
    }

    constructor ()
      ensures Valid()
      ensures books == map[] && cards == {} && userPublicIdToDelete == None && teamAddressBook == None
    {
      books, nextBookId, cards := map[], 1, {};
      userPublicIdToDelete, teamAddressBook := None, None;
    }

    /** GetTeamAddressbook. `users` is the identity platform's user table, `createOk`
        whether the backend accepts a book creation. */
    method GetTeamAddressbook(userId: int, users: map<int, User>, createOk: bool) returns (r: Option<TeamBook>)
      requires Valid()
      modifies this`books, this`nextBookId
      ensures Valid()
      ensures Located(books, nextBookId, r) == Locate(old(books), old(nextBookId), Lookup(users, userId), createOk)
    {
      LocatePreservesValid(books, nextBookId, Lookup(users, userId), createOk);
      r := None;
      if userId in users {
        var tenant := users[userId].tenantId;
        var principalUri := PrincipalFor(tenant);
        var found := if principalUri in books then Some(books[principalUri]) else None;
        if found.None? {
          if createOk {
            books := books[principalUri := StoredBook(nextBookId, TeamBookUri, TeamDisplayName, InitialSyncToken)];
            nextBookId := nextBookId + 1;
            found := Some(books[principalUri]);
          }
        }
        if found.Some? {
          r := Some(AsTeamBook(found.value, tenant));
        }
      }
    }

    /** createContactForUser: for a positive user id whose team book is located, a card
        with a fresh uid and the given e-mail is created (when the backend accepts it). */
    method CreateContactForUser(userId: int, email: string, users: map<int, User>, uid: string,
                                createOk: bool, cardOk: bool) returns (ok: bool)
      requires Valid()
      modifies this`books, this`nextBookId, this`cards
      ensures Valid()
      ensures userId <= 0 ==> !ok && books == old(books) && nextBookId == old(nextBookId) && cards == old(cards)
      ensures userId > 0 ==>
                var l := Locate(old(books), old(nextBookId), Lookup(users, userId), createOk);
                books == l.books && nextBookId == l.nextBookId &&
                ok == (l.result.Some? && cardOk) &&
                cards == old(cards) + (if ok then {Card(l.result.value.id, uid + ".vcf", email)} else {})
    {
      ok := false;
      if 0 < userId {
        var addressbook := GetTeamAddressbook(userId, users, createOk);
        if addressbook.Some? {
          if cardOk {
            cards := cards + {Card(addressbook.value.id, uid + ".vcf", email)};
          }
          ok := cardOk;
        }
      }
    }

    /** onAfterCreateUser: `newUserId` is the creation's result (None when not an id);
        a positive id gets its own team contact. */
    method OnAfterCreateUser(newUserId: Option<int>, publicId: string, users: map<int, User>, uid: string,
                             createOk: bool, cardOk: bool)
      requires Valid()
      modifies this`books, this`nextBookId, this`cards
      ensures Valid()
      ensures newUserId.Some? && newUserId.value > 0 ==>
                var l := Locate(old(books), old(nextBookId), Lookup(users, newUserId.value), createOk);
                books == l.books && nextBookId == l.nextBookId &&
                cards == old(cards) + (if l.result.Some? && cardOk then {Card(l.result.value.id, uid + ".vcf", publicId)} else {})
      ensures !(newUserId.Some? && newUserId.value > 0) ==>
                books == old(books) && nextBookId == old(nextBookId) && cards == old(cards)
      ensures old(cards) <= cards
    {
      var userId := if newUserId.Some? && newUserId.value > 0 then newUserId.value else 0;
      if userId > 0 {
        var _ := CreateContactForUser(userId, publicId, users, uid, createOk, cardOk);
      }
    }

    /** onAfterDoServerInitializations: a normal user whose team book is located and who
        has no card with their own e-mail in it gets one. `auth` is the session's user. */
    method OnAfterDoServerInitializations(auth: Option<User>, users: map<int, User>, uid: string,
                                          createOk: bool, cardOk: bool)
      requires Valid()
      modifies this`books, this`nextBookId, this`cards
      ensures Valid()
      ensures old(cards) <= cards
      ensures auth.None? || auth.value.role != NormalUser ==>
                books == old(books) && nextBookId == old(nextBookId) && cards == old(cards)
      ensures auth.Some? && auth.value.role == NormalUser ==>
                var l := Locate(old(books), old(nextBookId), Lookup(users, auth.value.id), createOk);
                books == l.books && nextBookId == l.nextBookId &&
                (l.result.Some? && CardsWith(old(cards), l.result.value.id, auth.value.publicId) != {} ==>
                   cards == old(cards)) &&
                (l.result.Some? && auth.value.id > 0 && cardOk ==>
                   CardsWith(cards, l.result.value.id, auth.value.publicId) != {}) &&
                cards == old(cards) +
                         (if l.result.Some? && CardsWith(old(cards), l.result.value.id, auth.value.publicId) == {} &&
                             auth.value.id > 0 && cardOk
                          then {Card(l.result.value.id, uid + ".vcf", auth.value.publicId)} else {})
    {
      if auth.Some? && auth.value.role == NormalUser {
        var user := auth.value;
        ghost var books0, next0 := books, nextBookId;
        var teamAddressBook := GetTeamAddressbook(user.id, users, createOk);
        if teamAddressBook.Some? {
          var contact := CardsWith(cards, teamAddressBook.value.id, user.publicId);
          if contact == {} {
            assert Lookup(users, user.id) == Some(users[user.id]);
            LocateIdempotent(books0, next0, users[user.id], users[user.id], createOk, createOk);
            var ok := CreateContactForUser(user.id, user.publicId, users, uid, createOk, cardOk);
            if ok {
              CardsWithInsert(old(cards), Card(teamAddressBook.value.id, uid + ".vcf", user.publicId),
                              teamAddressBook.value.id, user.publicId);
            }
          }
        }
      }
    }

    /** onBeforeDeleteUser: when the request names a user, remember their public id and
        their team book for the after-hook. Without a user id the fields keep whatever
        an earlier deletion left in them. */
    method OnBeforeDeleteUser(userId: Option<int>, users: map<int, User>, createOk: bool)
      requires Valid()
      modifies this`books, this`nextBookId, this`userPublicIdToDelete, this`teamAddressBook
      ensures Valid()
      ensures userId.None? ==> books == old(books) && nextBookId == old(nextBookId) &&
                               userPublicIdToDelete == old(userPublicIdToDelete) &&
                               teamAddressBook == old(teamAddressBook)
      ensures userId.Some? ==>
                var l := Locate(old(books), old(nextBookId), Lookup(users, userId.value), createOk);
                books == l.books && nextBookId == l.nextBookId && teamAddressBook == l.result &&
                userPublicIdToDelete == (if userId.value in users then Some(users[userId.value].publicId) else None)
    {
      if userId.Some? {
        userPublicIdToDelete := if userId.value in users then Some(users[userId.value].publicId) else None;
        teamAddressBook := GetTeamAddressbook(userId.value, users, createOk);
      }
    }

    /** The after-hook will remove a card: the user was deleted and both remembered
        values are present (a public id PHP considers true). */
    predicate DeletionArmed(deleted: bool)
      reads this
    {
      deleted && userPublicIdToDelete.Some? && Truthy(userPublicIdToDelete.value) && teamAddressBook.Some?
    }

    /** onAfterDeleteUser: after a successful deletion, one card of the remembered team
        book that carries the remembered public id is deleted, if there is one. The
        matching uses only the values captured before the deletion. */
    method OnAfterDeleteUser(deleted: bool)
      modifies this`cards
      ensures cards <= old(cards)
      ensures !old(DeletionArmed(deleted)) ==> cards == old(cards)
      ensures old(DeletionArmed(deleted)) ==>
                var matching := CardsWith(old(cards), teamAddressBook.value.id, userPublicIdToDelete.value);
                (matching == {} ==> cards == old(cards)) &&
                (matching != {} ==> exists c :: c in matching && cards == old(cards) - {c})
      ensures old(DeletionArmed(deleted)) &&
              |CardsWith(old(cards), teamAddressBook.value.id, userPublicIdToDelete.value)| <= 1 ==>
                CardsWith(cards, teamAddressBook.value.id, userPublicIdToDelete.value) == {}
    {
      if deleted && userPublicIdToDelete.Some? && Truthy(userPublicIdToDelete.value) && teamAddressBook.Some? {
        var found := CardsWith(cards, teamAddressBook.value.id, userPublicIdToDelete.value);
        if found != {} {
          var card :| card in found;
          cards := cards - {card};
          if |found| <= 1 {
            SingletonSet(found, card);
            CardsWithRemove(old(cards), card, teamAddressBook.value.id, userPublicIdToDelete.value);
          }
        }
      }
    }
  }

  lemma SingletonSet<T>(s: set<T>, x: T)
    requires x in s && |s| <= 1
    ensures s == {x}
  {
    var rest := s - {x};
    assert |rest| == |s| - 1 == 0;
    assert rest == {};
  }

  /** The delete pair removes the deleted user's own team contact: when the store holds
      exactly one card of the user's team book with the user's public id, it is gone
      after the before-hook, the deletion, and the after-hook. */
  method DeleteUserScenario(m: TeamContactsModule, userId: int, users: map<int, User>)
    requires m.Valid()
    requires userId in users && Truthy(users[userId].publicId)
    requires var l := Locate(m.books, m.nextBookId, Some(users[userId]), false);
             l.result.Some? && |CardsWith(m.cards, l.result.value.id, users[userId].publicId)| == 1
    modifies m
    ensures m.teamAddressBook.Some? && CardsWith(m.cards, m.teamAddressBook.value.id, users[userId].publicId) == {}
  {
    m.OnBeforeDeleteUser(Some(userId), users, false);
    m.OnAfterDeleteUser(true);
  }
}

/** Query and argument rewriting of the team-contacts module (Module.php): the team
    branch added to card-id lookups, the storage-argument rewrite, the federation of a
    contact query with the team book, the team entry of the address-book list, and the
    group e-mail formatter. The team book each hook locates is passed in as `team`. */
module Query {
  import opened Common

  // ---------------------------------------------------------------------------
  // onContactQueryBuilder

  /** The UUID argument: an array of card ids, or a single (possibly null) card id. */
  datatype UuidArg = UuidArray(ids: seq<int>) | UuidScalar(id: Option<int>)

  /** A filter on the card id column. A None key is SQL NULL. The query builder writes
      `where(col, null)` as `col IS NULL`, but card ids are non-null keys, so a NULL key
      selects no card either way. */
  datatype CardFilter = WhereIn(keys: seq<Option<int>>) | WhereEq(key: Option<int>)

  /** SQL meaning of a card-id filter. */
  predicate FilterSelects(f: CardFilter, cardId: int)
  {
    match f
    case WhereIn(keys) => Some(cardId) in keys
    case WhereEq(key) => key == Some(cardId)
  }

  /** The card-id filter built from the UUID argument: an empty array becomes [null], so
      that the filter selects no card rather than being dropped; a non-empty array is used
      as it is; a scalar becomes an equality. */
  function UuidFilter(arg: UuidArg): (f: CardFilter)
    ensures arg.UuidArray? && arg.ids == [] ==> f == WhereIn([None])
    ensures arg.UuidArray? && arg.ids != [] ==>
              f.WhereIn? && |f.keys| == |arg.ids| && forall k :: 0 <= k < |arg.ids| ==> f.keys[k] == Some(arg.ids[k])
    ensures arg.UuidScalar? ==> f == WhereEq(arg.id)
    ensures forall c {:trigger FilterSelects(f, c)} :: FilterSelects(f, c) <==>
              match arg
              case UuidArray(ids) => c in ids
              case UuidScalar(id) => id == Some(c)
  {
    match arg
    case UuidArray(ids) =>
      var wrapped := seq(|ids|, k requires 0 <= k < |ids| => Some(ids[k]));
      var keys := if |ids| == 0 then [None] else wrapped;
      assert forall c :: Some(c) in wrapped <==> c in ids by {
        forall c ensures Some(c) in wrapped <==> c in ids {
          if Some(c) in wrapped {
            var k :| 0 <= k < |wrapped| && wrapped[k] == Some(c);
            assert ids[k] == c;
          }
          if c in ids {
            var k :| 0 <= k < |ids| && ids[k] == c;
            assert wrapped[k] == Some(c);
          }
        }
      }
      WhereIn(keys)
    case UuidScalar(id) => WhereEq(id)
  }

  /** The branch onContactQueryBuilder ORs into the contact query: cards of the team
      book that pass the UUID filter. When no team book was located the book key is NULL;
      the builder writes that as `IS NULL`, which no address book id satisfies, since book
      ids are non-null keys. */
  datatype TeamBranch = TeamBranch(bookKey: Option<int>, cards: CardFilter)

  predicate BranchSelects(b: TeamBranch, bookId: int, cardId: int)
  {
    b.bookKey == Some(bookId) && FilterSelects(b.cards, cardId)
  }

  function ContactQueryBranch(team: Option<TeamBook>, arg: UuidArg): (b: TeamBranch)
    ensures forall bookId, cardId {:trigger BranchSelects(b, bookId, cardId)} ::
              BranchSelects(b, bookId, cardId) <==>
              team.Some? && bookId == team.value.id && FilterSelects(UuidFilter(arg), cardId)
  {
    TeamBranch(if team.Some? then Some(team.value.id) else None, UuidFilter(arg))
  }

  /** An empty UUID array selects no team card at all. */
  lemma EmptyUuidArraySelectsNothing(team: Option<TeamBook>, bookId: int, cardId: int)
    ensures !BranchSelects(ContactQueryBranch(team, UuidArray([])), bookId, cardId)
  {
    assert !FilterSelects(UuidFilter(UuidArray([])), cardId);
  }

  /** A non-empty array selects exactly the listed cards of the team book. */
  lemma UuidArraySelectsListed(team: TeamBook, ids: seq<int>, cardId: int)
    ensures BranchSelects(ContactQueryBranch(Some(team), UuidArray(ids)), team.id, cardId) <==> cardId in ids
  {
    assert FilterSelects(UuidFilter(UuidArray(ids)), cardId) <==> cardId in ids;
  }

  // ---------------------------------------------------------------------------
  // populateContactArguments

  /** The part of a storage name before its first '-' (the first element of PHP's
      explode('-', ...), which always exists). */
  function FirstSegment(s: string): (r: string)
    ensures '-' !in r
    ensures r <= s
    ensures r == s || s[|r|] == '-'
  {
    if s == [] || s[0] == '-' then [] else [s[0]] + FirstSegment(s[1..])
  }

  /** A prefix without '-' is carried into the first segment as it is. */
  lemma {:induction false} FirstSegmentOfPrefix(p: string, s: string)
    requires '-' !in p
    ensures FirstSegment(p + s) == p + FirstSegment(s)
  {
    if p != [] {
      assert p[0] in p;
      assert '-' !in p[1..];
      var ps := p + s;
      assert ps[0] == p[0] && ps[1..] == p[1..] + s;
      calc {
        FirstSegment(ps);
        [ps[0]] + FirstSegment(ps[1..]);
        { FirstSegmentOfPrefix(p[1..], s); }
        [p[0]] + (p[1..] + FirstSegment(s));
        { assert [p[0]] + p[1..] == p; }
        p + FirstSegment(s);
      }
    } else {
      assert p + s == s && p + FirstSegment(s) == FirstSegment(s);
    }
  }

  /** The storage names the rewrite recognises: "team" itself, or "team-" followed by
      anything. */
  lemma FirstSegmentIsTeam(s: string)
    ensures FirstSegment(s) == TeamStorage <==>
              s == TeamStorage || (|s| > |TeamStorage| && s[..|TeamStorage|] == TeamStorage && s[|TeamStorage|] == '-')
  {
    var n := |TeamStorage|;
    if s == TeamStorage || (|s| > n && s[..n] == TeamStorage && s[n] == '-') {
      TeamPrefixedFirstSegment(s);
    }
  }

  lemma TeamPrefixedFirstSegment(s: string)
    requires s == TeamStorage || (|s| > |TeamStorage| && s[..|TeamStorage|] == TeamStorage && s[|TeamStorage|] == '-')
    ensures FirstSegment(s) == TeamStorage
  {
    var n := |TeamStorage|;
    assert s == TeamStorage + s[n..];
    assert '-' !in TeamStorage;
    FirstSegmentOfPrefix(TeamStorage, s[n..]);
    assert s[n..] == [] || s[n..][0] == '-';
  }

  /** The arguments of PopulateContactArguments / CreateContact that the hook reads and
      writes; a missing key is None. */
  datatype ContactArgs = ContactArgs(storage: Option<string>, userId: Option<int>, addressBookId: Option<int>)

  datatype Populated = Populated(args: ContactArgs, result: bool)

  /** populateContactArguments: a "team" or "team-..." storage of a request that names a
      user is pointed at the located team book, and the hook reports success. Anything
      else is left as it is. */
  function PopulateContactArguments(args: ContactArgs, team: Option<TeamBook>, prior: bool): (p: Populated)
    ensures (args.storage.Some? && args.userId.Some? && FirstSegment(args.storage.value) == TeamStorage && team.Some?) ==>
              p == Populated(args.(storage := Some(TeamStorage), addressBookId := Some(team.value.id)), true)
    ensures !(args.storage.Some? && args.userId.Some? && FirstSegment(args.storage.value) == TeamStorage && team.Some?) ==>
              p == Populated(args, prior)
  {
    if args.storage.Some? && args.userId.Some? then
      var storageParts0 := FirstSegment(args.storage.value);
      if storageParts0 == TeamStorage && team.Some? then
        Populated(args.(storage := Some(TeamStorage), addressBookId := Some(team.value.id)), true)
      else Populated(args, prior)
    else Populated(args, prior)
  }

  /** A request with a "team-<suffix>" storage is rewritten to the plain team storage. */
  lemma TeamSuffixedStorageIsRewritten(suffix: string, userId: int, bookId: Option<int>, team: TeamBook, prior: bool)
    ensures PopulateContactArguments(ContactArgs(Some(TeamStorage + "-" + suffix), Some(userId), bookId), Some(team), prior)
            == Populated(ContactArgs(Some(TeamStorage), Some(userId), Some(team.id)), true)
  {
    var s := TeamStorage + "-" + suffix;
    assert s[..4] == TeamStorage && s[4] == '-';
    FirstSegmentIsTeam(s);
  }

  // ---------------------------------------------------------------------------
  // onPrepareFiltersFromStorage

  /** One disjunct of the contact query's WHERE list: the platform's own conditions are
      opaque and named; the team hook adds an address-book test. */
  datatype Pred = Opaque(name: string) | CardInBook(bookId: int)

  datatype ContactQuery = ContactQuery(disjuncts: seq<Pred>)

  /** A row as far as the query can see it: its card's address book, and the names of
      the opaque conditions it satisfies. */
  datatype QueryRow = QueryRow(cardBookId: int, satisfies: set<string>)

  predicate PredHolds(p: Pred, row: QueryRow)
  {
    match p
    case Opaque(n) => n in row.satisfies
    case CardInBook(b) => row.cardBookId == b
  }

  predicate Matches(q: ContactQuery, row: QueryRow)
  {
    exists k :: 0 <= k < |q.disjuncts| && PredHolds(q.disjuncts[k], row)
  }

  /** What onPrepareFiltersFromStorage leaves: the IsValid argument and the query. */
  datatype Prepared = Prepared(isValid: Option<bool>, query: ContactQuery)

  /** The scopes that see the team book. */
  predicate TeamScope(storage: Option<string>)
  {
    storage == Some(TeamStorage) || storage == Some(AllStorage)
  }

  /** onPrepareFiltersFromStorage: for the team and all scopes the request is marked
      valid and, when the team book was located, its cards are ORed into the query. */
  function PrepareFiltersFromStorage(storage: Option<string>, isValid: Option<bool>, team: Option<TeamBook>,
                                     q: ContactQuery): (p: Prepared)
    ensures !TeamScope(storage) ==> p == Prepared(isValid, q)
    ensures TeamScope(storage) ==> p.isValid == Some(true)
    ensures TeamScope(storage) && team.None? ==> p.query == q
    ensures TeamScope(storage) && team.Some? ==> p.query.disjuncts == q.disjuncts + [CardInBook(team.value.id)]
  {
    if storage.Some? && (storage.value == TeamStorage || storage.value == AllStorage) then
      if team.Some? then Prepared(Some(true), ContactQuery(q.disjuncts + [CardInBook(team.value.id)]))
      else Prepared(Some(true), q)
    else Prepared(isValid, q)
  }

  /** Federation: in the team or all scope a row is selected exactly when the base query
      selected it or its card is in the team book. The branch is part of the one query,
      so sorting and paging apply to the union. */
  lemma FederatedQuerySelectsUnion(storage: Option<string>, isValid: Option<bool>, team: TeamBook,
                                   q: ContactQuery, row: QueryRow)
    requires TeamScope(storage)
    ensures Matches(PrepareFiltersFromStorage(storage, isValid, Some(team), q).query, row) <==>
            Matches(q, row) || row.cardBookId == team.id
  {
    var q' := PrepareFiltersFromStorage(storage, isValid, Some(team), q).query;
    var n := |q.disjuncts|;
    if row.cardBookId == team.id {
      assert PredHolds(q'.disjuncts[n], row);
    }
    if Matches(q, row) {
      var k :| 0 <= k < n && PredHolds(q.disjuncts[k], row);
      assert q'.disjuncts[k] == q.disjuncts[k];
    }
    if Matches(q', row) {
      var k :| 0 <= k < |q'.disjuncts| && PredHolds(q'.disjuncts[k], row);
      if k < n {
        assert q.disjuncts[k] == q'.disjuncts[k];
      }
    }
  }

  // ---------------------------------------------------------------------------
  // onAfterGetAddressBooks

  /** One entry of the address-book list the platform shows. */
  datatype BookEntry = BookEntry(id: string, entityId: int, cTag: int, display: bool, order: int,
                                 displayName: string, uri: string, url: string)

  /** The entry that presents the team book. Its id is a storage name the storage
      rewrite maps back to the team book, and it points at the located book. */
  function TeamBookEntry(team: TeamBook): (r: BookEntry)
    ensures FirstSegment(r.id) == TeamStorage && r.entityId == team.id && r.cTag == team.syncToken
    ensures r.uri == team.uri && r.url == team.uri && r.displayName == team.displayName && r.display
  {
    TeamPrefixedFirstSegment(TeamStorage);
    BookEntry(TeamStorage, team.id, team.syncToken, true, 1, team.displayName, team.uri, team.uri)
  }

  /** onAfterGetAddressBooks: a result that is not an array (None) starts empty; the team
      book's entry is appended when it was located. */
  function AddressBooksWithTeam(books: Option<seq<BookEntry>>, team: Option<TeamBook>): (r: seq<BookEntry>)
    ensures var base := if books.Some? then books.value else [];
            |r| == |base| + (if team.Some? then 1 else 0) && r[..|base|] == base
    ensures team.Some? ==> r[|r| - 1] == TeamBookEntry(team.value) &&
                           r[|r| - 1].id == "team" && r[|r| - 1].entityId == team.value.id
  {
    var base := if books.Some? then books.value else [];
    if team.Some? then base + [TeamBookEntry(team.value)] else base
  }

  // ---------------------------------------------------------------------------
  // onGetGroupContactsEmails

  /** PHP's empty() on a string. */
  predicate EmptyString(s: string)
  {
    !Truthy(s)
  }

  /** One recipient: `"Name"<email>` when the name is not empty, the bare e-mail otherwise. */
  function FormatAddress(fullName: string, email: string): (r: string)
    ensures EmptyString(fullName) ==> r == email
    ensures !EmptyString(fullName) ==>
              |r| == |fullName| + |email| + 4 &&
              r[0] == '"' && r[1..|fullName| + 1] == fullName && r[|fullName| + 1..|fullName| + 3] == "\"<" &&
              r[|fullName| + 3..|r| - 1] == email && r[|r| - 1] == '>'
  {
    if !EmptyString(fullName) then "\"" + fullName + "\"" + "<" + email + ">" else email
  }

  /** A card of the team book, for the group of all team members. */
  datatype TeamCard = TeamCard(fullName: string, viewEmail: string)

  /** A member of an explicit group: their public id and, when their team contact was
      found, its full name. */
  datatype GroupMember = GroupMember(publicId: string, contactName: Option<string>)

  /** The all-members group: one address per team card, from its name and ViewEmail. */
  function CardAddresses(cards: seq<TeamCard>): seq<string>
  {
    seq(|cards|, k requires 0 <= k < |cards| => FormatAddress(cards[k].fullName, cards[k].viewEmail))
  }

  function MemberName(m: GroupMember): string
  {
    if m.contactName.Some? then m.contactName.value else ""
  }

  /** An explicit group: one address per member, on the member's public id. */
  function MemberAddresses(members: seq<GroupMember>): seq<string>
  {
    seq(|members|, k requires 0 <= k < |members| => FormatAddress(MemberName(members[k]), members[k].publicId))
  }

  /** The group being expanded: the group of all team members, or an explicit group. */
  datatype Group = AllMembers(cards: seq<TeamCard>) | Members(members: seq<GroupMember>)

  /** onGetGroupContactsEmails: None leaves the result untouched (no user, no group or no
      team book); otherwise one address per card or per member. */
  function GroupContactsEmails(hasUser: bool, group: Option<Group>, team: Option<TeamBook>): (r: Option<seq<string>>)
    ensures r.Some? <==> hasUser && group.Some? && team.Some?
    ensures r.Some? && group.value.AllMembers? ==>
              var cards := group.value.cards;
              |r.value| == |cards| &&
              forall k :: 0 <= k < |cards| ==> r.value[k] == FormatAddress(cards[k].fullName, cards[k].viewEmail)
    ensures r.Some? && group.value.Members? ==>
              var members := group.value.members;
              |r.value| == |members| &&
              forall k :: 0 <= k < |members| ==>
                r.value[k] == FormatAddress(if members[k].contactName.Some? then members[k].contactName.value else "",
                                            members[k].publicId)
  {
    if hasUser && group.Some? && team.Some? then
      match group.value
      case AllMembers(cards) => Some(CardAddresses(cards))
      case Members(members) => Some(MemberAddresses(members))
    else None
  }
}

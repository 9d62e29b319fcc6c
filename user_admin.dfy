/** User administration: the merged user list (database records joined with
    identity-provider accounts), the panel's search box and its split into
    administrators and teachers, and the two update actions on the user
    table. The identity provider and the database are inputs; a write's
    outcome is a parameter. */
module UserAdmin {
  import opened Common

  /** A row of the user table. */
  datatype UserRecord = UserRecord(
    id: int, clerkId: string, email: string,
    firstName: Option<string>, lastName: Option<string>, identification: Option<string>,
    areaId: Option<int>, evaluationLimit: int, useGlobalApiKey: bool)

  /** An identity-provider account: id, names, e-mail addresses and the role
      in its public metadata. */
  datatype Account = Account(id: string, firstName: Option<string>, lastName: Option<string>, emails: seq<string>, role: Option<string>)

  /** The record as the panel shows it, with the account's role. */
  datatype DisplayUser = DisplayUser(record: UserRecord, role: Option<string>)

  // ---------------------------------------------------------------------------
  // getUsers

  /** `new Map(rows.map(u => [u.clerkId, u])).get(id)`: the last row wins. */
  function RecordFor(records: seq<UserRecord>, clerkId: string): (r: Option<UserRecord>)
    ensures r.Some? ==> r.value in records && r.value.clerkId == clerkId
    ensures r.None? <==> forall u :: u in records ==> u.clerkId != clerkId
  {
    if records == [] then None
    else
      var last := records[|records| - 1];
      if last.clerkId == clerkId then Some(last)
      else
        var r := RecordFor(records[..|records| - 1], clerkId);
        assert forall u :: u in records ==> u in records[..|records| - 1] || u == last;
        r
  }

  /** One account joined with its record: the first e-mail address, else the
      stored one; the account's names when non-empty, else the stored ones. */
  function Join(a: Account, db: UserRecord): (u: DisplayUser)
    ensures u.record.id == db.id && u.record.clerkId == db.clerkId && u.record.identification == db.identification
    ensures u.record.areaId == db.areaId && u.record.evaluationLimit == db.evaluationLimit
    ensures u.record.useGlobalApiKey == db.useGlobalApiKey
    ensures u.record.email == if a.emails == [] then db.email else a.emails[0]
    ensures Truthy(a.firstName) ==> u.record.firstName == a.firstName
    ensures !Truthy(a.firstName) ==> u.record.firstName == db.firstName
    ensures Truthy(a.lastName) ==> u.record.lastName == a.lastName
    ensures !Truthy(a.lastName) ==> u.record.lastName == db.lastName
    ensures u.role == a.role
  {
    DisplayUser(db.(email := if a.emails == [] then db.email else a.emails[0],
                    firstName := OrElse(a.firstName, db.firstName),
                    lastName := OrElse(a.lastName, db.lastName)),
                a.role)
  }

  /** The map/filter chain: accounts without a record are dropped, the rest
      are joined in account order. */
  function MergeUsers(accounts: seq<Account>, records: seq<UserRecord>): (r: seq<DisplayUser>)
    ensures |r| <= |accounts|
    ensures forall u :: u in r <==>
      exists a :: a in accounts && RecordFor(records, a.id).Some? && u == Join(a, RecordFor(records, a.id).value)
  {
    if accounts == [] then []
    else
      var a := accounts[0];
      var db := RecordFor(records, a.id);
      assert forall b :: b in accounts <==> b == a || b in accounts[1..];
      (if db.Some? then [Join(a, db.value)] else []) + MergeUsers(accounts[1..], records)
  }

  /** The merge keeps account order: it distributes over concatenation. */
  lemma {:induction false} MergeUsersAppend(xs: seq<Account>, ys: seq<Account>, records: seq<UserRecord>)
    ensures MergeUsers(xs + ys, records) == MergeUsers(xs, records) + MergeUsers(ys, records)
  {
    if xs != [] {
      assert (xs + ys)[0] == xs[0] && (xs + ys)[1..] == xs[1..] + ys;
      MergeUsersAppend(xs[1..], ys, records);
    } else {
      assert xs + ys == ys;
    }
  }

  /** Every account with a record is listed: none is lost. */
  lemma {:induction false} MergeUsersComplete(accounts: seq<Account>, records: seq<UserRecord>)
    requires forall a :: a in accounts ==> RecordFor(records, a.id).Some?
    ensures |MergeUsers(accounts, records)| == |accounts|
  {
    if accounts != [] {
      MergeUsersComplete(accounts[1..], records);
    }
  }

  /** What the queries threw, when they threw: an `Error` with its message or
      some other value. */
  datatype Thrown = ErrorThrown(message: string) | OtherThrown

  datatype UsersResult = UsersResult(users: seq<DisplayUser>, error: Option<string>)

  const LoadUsersFailed := "No se pudieron cargar los usuarios."

  /** `getUsers`, given either the two query results or what was thrown. */
  function GetUsers(accounts: seq<Account>, records: seq<UserRecord>, failure: Option<Thrown>): (r: UsersResult)
    ensures failure.None? ==> r.error.None? && r.users == MergeUsers(accounts, records)
    ensures failure.Some? ==> r.users == [] && r.error.Some?
    ensures failure == Some(OtherThrown) ==> r.error == Some(LoadUsersFailed)
    ensures failure.Some? && failure.value.ErrorThrown? ==> r.error == Some(failure.value.message)
  {
    match failure
    case None => UsersResult(MergeUsers(accounts, records), None)
    case Some(ErrorThrown(m)) => UsersResult([], Some(m))
    case Some(OtherThrown) => UsersResult([], Some(LoadUsersFailed))
  }

  // ---------------------------------------------------------------------------
  // The search box and the two tables

  /** `s?.toLowerCase().includes(term)`: false for a missing value. */
  predicate FieldMatches(s: Option<string>, term: string) {
    s.Some? && Includes(ToLower(s.value), term)
  }

  /** The filter test against the already lower-cased term. */
  predicate Matches(u: DisplayUser, lowered: string) {
    || FieldMatches(u.record.firstName, lowered)
    || FieldMatches(u.record.lastName, lowered)
    || FieldMatches(Some(u.record.email), lowered)
    || FieldMatches(u.record.identification, lowered)
  }

  /** `filteredUsers` for the search box's content. */
  function Search(users: seq<DisplayUser>, searchTerm: string): (r: seq<DisplayUser>)
    ensures |r| <= |users|
    ensures forall u :: u in r <==> u in users && Matches(u, ToLower(searchTerm))
  {
    if users == [] then []
    else
      assert forall v :: v in users <==> v == users[0] || v in users[1..];
      (if Matches(users[0], ToLower(searchTerm)) then [users[0]] else []) + Search(users[1..], searchTerm)
  }

  /** The search keeps the list's order: it distributes over concatenation. */
  lemma {:induction false} SearchAppend(xs: seq<DisplayUser>, ys: seq<DisplayUser>, searchTerm: string)
    ensures Search(xs + ys, searchTerm) == Search(xs, searchTerm) + Search(ys, searchTerm)
  {
    if xs != [] {
      assert (xs + ys)[0] == xs[0] && (xs + ys)[1..] == xs[1..] + ys;
      SearchAppend(xs[1..], ys, searchTerm);
    } else {
      assert xs + ys == ys;
    }
  }

  /** Case does not matter: two terms that lower-case alike select the same users. */
  lemma {:induction false} SearchIgnoresCase(users: seq<DisplayUser>, t1: string, t2: string)
    requires ToLower(t1) == ToLower(t2)
    ensures Search(users, t1) == Search(users, t2)
  {
    if users != [] {
      SearchIgnoresCase(users[1..], t1, t2);
    }
  }

  /** An upper-case term finds what its lower-case form finds. */
  lemma SearchTermCaseFolded(users: seq<DisplayUser>, searchTerm: string)
    ensures Search(users, searchTerm) == Search(users, ToLower(searchTerm))
  {
    ToLowerIdempotent(searchTerm);
    SearchIgnoresCase(users, searchTerm, ToLower(searchTerm));
  }

  /** An empty search box keeps every user (every user has an e-mail string). */
  lemma {:induction false} EmptySearchKeepsAll(users: seq<DisplayUser>)
    ensures Search(users, "") == users
  {
    if users != [] {
      EmptyIncluded(ToLower(users[0].record.email));
      EmptySearchKeepsAll(users[1..]);
    }
  }

  /** `filteredUsers.filter(user => user.role === role)`. */
  function WithRole(users: seq<DisplayUser>, role: string): (r: seq<DisplayUser>)
    ensures |r| <= |users|
    ensures forall u :: u in r <==> u in users && u.role == Some(role)
  {
    if users == [] then []
    else
      assert forall v :: v in users <==> v == users[0] || v in users[1..];
      (if users[0].role == Some(role) then [users[0]] else []) + WithRole(users[1..], role)
  }

  /** The administrators' and the teachers' tables. */
  function Tables(users: seq<DisplayUser>, searchTerm: string): (r: (seq<DisplayUser>, seq<DisplayUser>)) {
    var filtered := Search(users, searchTerm);
    (WithRole(filtered, "ADMIN"), WithRole(filtered, "TEACHER"))
  }

  /** A user is in the administrators' table iff it matches the search and is
      an ADMIN, in the teachers' table iff it matches and is a TEACHER; no
      user is in both, and a user with any other role is in neither. */
  lemma TablesPartition(users: seq<DisplayUser>, searchTerm: string, u: DisplayUser)
    ensures u in Tables(users, searchTerm).0 <==> u in users && Matches(u, ToLower(searchTerm)) && u.role == Some("ADMIN")
    ensures u in Tables(users, searchTerm).1 <==> u in users && Matches(u, ToLower(searchTerm)) && u.role == Some("TEACHER")
    ensures !(u in Tables(users, searchTerm).0 && u in Tables(users, searchTerm).1)
    ensures u.role != Some("ADMIN") && u.role != Some("TEACHER") ==>
      u !in Tables(users, searchTerm).0 && u !in Tables(users, searchTerm).1
  {
  }

  /** Between them the two tables hold every matching user when every user is
      an ADMIN or a TEACHER. */
  lemma {:induction false} TablesCoverStaff(users: seq<DisplayUser>)
    requires forall i :: 0 <= i < |users| ==> users[i].role == Some("ADMIN") || users[i].role == Some("TEACHER")
    ensures |WithRole(users, "ADMIN")| + |WithRole(users, "TEACHER")| == |users|
  {
    if users != [] {
      TablesCoverStaff(users[1..]);
    }
  }

  // ---------------------------------------------------------------------------
  // The update actions

  /** The fields of `updateUserFull`'s payload; the two optional ones are
      `None` when undefined. */
  datatype UpdatePayload = UpdatePayload(
    id: int, firstName: string, lastName: string, areaId: Option<int>, identification: Option<string>,
    useGlobalApiKey: Option<bool>, evaluationLimit: Option<int>)

  /** `dataToUpdate`: the four fixed fields and the optional ones that are present. */
  datatype UpdateData = UpdateData(
    firstName: string, lastName: string, areaId: Option<int>, identification: Option<string>,
    useGlobalApiKey: Option<bool>, evaluationLimit: Option<int>)

  /** Builds `dataToUpdate`, adding each optional field only when it is defined. */
  method BuildUpdateData(p: UpdatePayload) returns (data: UpdateData)
    ensures data.firstName == p.firstName && data.lastName == p.lastName
    ensures data.areaId == p.areaId && data.identification == p.identification
    ensures data.useGlobalApiKey.Some? <==> p.useGlobalApiKey.Some?
    ensures data.evaluationLimit.Some? <==> p.evaluationLimit.Some?
    ensures data.useGlobalApiKey.Some? ==> data.useGlobalApiKey == p.useGlobalApiKey
    ensures data.evaluationLimit.Some? ==> data.evaluationLimit == p.evaluationLimit
  {
    data := UpdateData(p.firstName, p.lastName, p.areaId, p.identification, None, None);
    if p.useGlobalApiKey.Some? {
      data := data.(useGlobalApiKey := p.useGlobalApiKey);
    }
    if p.evaluationLimit.Some? {
      data := data.(evaluationLimit := p.evaluationLimit);
    }
  }

  /** A record after the update: the fields present in `data` are replaced,
      the others are kept. */
  function Apply(u: UserRecord, data: UpdateData): (r: UserRecord)
    ensures r.id == u.id && r.clerkId == u.clerkId && r.email == u.email
    ensures r.firstName == Some(data.firstName) && r.lastName == Some(data.lastName)
    ensures r.areaId == data.areaId && r.identification == data.identification
    ensures r.useGlobalApiKey == if data.useGlobalApiKey.Some? then data.useGlobalApiKey.value else u.useGlobalApiKey
    ensures r.evaluationLimit == if data.evaluationLimit.Some? then data.evaluationLimit.value else u.evaluationLimit
  {
    u.(firstName := Some(data.firstName), lastName := Some(data.lastName),
       areaId := data.areaId, identification := data.identification,
       useGlobalApiKey := if data.useGlobalApiKey.Some? then data.useGlobalApiKey.value else u.useGlobalApiKey,
       evaluationLimit := if data.evaluationLimit.Some? then data.evaluationLimit.value else u.evaluationLimit)
  }

  /** How the database write ended: written, a known request error with its
      code and message, another `Error`, or a thrown non-`Error` value. */
  datatype WriteOutcome = Written | KnownRequestError(code: string, message: string) | OtherError(message: string) | NonErrorThrown

  datatype ActionResult = Success | Failure(error: string)

  const UserNotFound := "Usuario no encontrado"
  const IdentificationTaken := "La identificación ingresada ya pertenece a otro usuario."
  const UpdateUserFailed := "Ocurrió un error al actualizar el usuario."
  const NotAuthenticated := "Usuario no autenticado."
  const AllFieldsRequired := "Todos los campos son obligatorios."
  const IdentificationInUse := "La identificación ingresada ya está en uso. Por favor, utilice otra."
  const UpdateProfileFailed := "No se pudo actualizar el perfil. Inténtelo de nuevo."

  /** The catch block of an update: a duplicate key (P2002) gets its own
      message, any other `Error` reports its message, anything else the
      fallback. */
  function WriteFailure(outcome: WriteOutcome, duplicateMessage: string, fallback: string): (r: ActionResult)
    requires !outcome.Written?
    ensures r.Failure?
    ensures outcome.KnownRequestError? && outcome.code == "P2002" ==> r.error == duplicateMessage
    ensures outcome.KnownRequestError? && outcome.code != "P2002" ==> r.error == outcome.message
    ensures outcome.OtherError? ==> r.error == outcome.message
    ensures outcome.NonErrorThrown? ==> r.error == fallback
  {
    match outcome
    case KnownRequestError(code, message) => if code == "P2002" then Failure(duplicateMessage) else Failure(message)
    case OtherError(message) => Failure(message)
    case NonErrorThrown => Failure(fallback)
  }

  /** `profile.trim()` for each of the three profile fields. */
  datatype ProfileData = ProfileData(firstName: string, lastName: string, identification: string)

  /** The user table, keyed by record id. */
  class UserStore {
    var records: map<int, UserRecord>

    constructor(initial: map<int, UserRecord>)
      ensures records == initial
    {
      records := initial;
    }

    /** `updateUserFull`: an unknown id fails with 'Usuario no encontrado'
        and writes nothing; otherwise the payload's fields are written, or
        the write's failure is reported and nothing changes. */
    method UpdateUserFull(p: UpdatePayload, outcome: WriteOutcome) returns (r: ActionResult)
      modifies this
      ensures p.id !in old(records) ==> r == Failure(UserNotFound) && records == old(records)
      ensures p.id in old(records) && outcome.Written? ==>
        r == Success && records == old(records)[p.id := Apply(old(records)[p.id], PayloadData(p))]
      ensures p.id in old(records) && !outcome.Written? ==>
        r == WriteFailure(outcome, IdentificationTaken, UpdateUserFailed) && records == old(records)
    {
      if p.id !in records {
        return Failure(UserNotFound);
      }
      var data := BuildUpdateData(p);
      if outcome.Written? {
        records := records[p.id := Apply(records[p.id], data)];
        r := Success;
      } else {
        r := WriteFailure(outcome, IdentificationTaken, UpdateUserFailed);
      }
    }

    /** `updateCurrentUserProfile`: no signed-in user or an empty field fails
        without writing; otherwise the record with that account id gets the
        three trimmed values, or the write's failure is reported. */
    method UpdateCurrentUserProfile(clerkId: Option<string>, data: ProfileData, outcome: WriteOutcome) returns (r: ActionResult)
      requires Truthy(clerkId) && outcome.Written? ==> HasAccount(records, clerkId.value)
      modifies this
      ensures !Truthy(clerkId) ==> r == Failure(NotAuthenticated) && records == old(records)
      ensures Truthy(clerkId) && !ProfileComplete(data) ==> r == Failure(AllFieldsRequired) && records == old(records)
      ensures Truthy(clerkId) && ProfileComplete(data) && outcome.Written? ==>
        r == Success && records == WithProfile(old(records), clerkId.value, data)
      ensures Truthy(clerkId) && ProfileComplete(data) && !outcome.Written? ==>
        r == WriteFailure(outcome, IdentificationInUse, UpdateProfileFailed) && records == old(records)
      ensures Truthy(clerkId) && !HasAccount(old(records), clerkId.value) ==> r.Failure? && records == old(records)
    {
      if !Truthy(clerkId) {
        return Failure(NotAuthenticated);
      }
      if data.firstName == "" || data.lastName == "" || data.identification == "" {
        return Failure(AllFieldsRequired);
      }
      if outcome.Written? {
        records := WithProfile(records, clerkId.value, data);
        r := Success;
      } else {
        r := WriteFailure(outcome, IdentificationInUse, UpdateProfileFailed);
      }
    }
  }

  /** The data an update writes for a payload (what `BuildUpdateData` builds). */
  function PayloadData(p: UpdatePayload): UpdateData {
    UpdateData(p.firstName, p.lastName, p.areaId, p.identification, p.useGlobalApiKey, p.evaluationLimit)
  }

  /** Whether some record carries the account id. The database refuses an
      update by account id that matches no record (Prisma's P2025 error), so a
      write outcome is only reported for an account that has a record. */
  predicate HasAccount(records: map<int, UserRecord>, clerkId: string) {
    exists k :: k in records && records[k].clerkId == clerkId
  }

  /** `!data.firstName || !data.lastName || !data.identification` is false. */
  predicate ProfileComplete(data: ProfileData) {
    data.firstName != "" && data.lastName != "" && data.identification != ""
  }

  /** The table after the profile write: the record(s) with that account id
      get the trimmed names and identification; all others are unchanged. */
  function WithProfile(records: map<int, UserRecord>, clerkId: string, data: ProfileData): (r: map<int, UserRecord>)
    ensures r.Keys == records.Keys
    ensures forall k :: k in records && records[k].clerkId != clerkId ==> r[k] == records[k]
    ensures forall k :: k in records && records[k].clerkId == clerkId ==>
      r[k].firstName == Some(Trim(data.firstName)) && r[k].lastName == Some(Trim(data.lastName))
      && r[k].identification == Some(Trim(data.identification))
      && r[k].id == records[k].id && r[k].email == records[k].email && r[k].areaId == records[k].areaId
      && r[k].clerkId == clerkId && r[k].evaluationLimit == records[k].evaluationLimit
      && r[k].useGlobalApiKey == records[k].useGlobalApiKey
  {
    map k | k in records ::
      if records[k].clerkId == clerkId
      then records[k].(firstName := Some(Trim(data.firstName)), lastName := Some(Trim(data.lastName)),
                       identification := Some(Trim(data.identification)))
      else records[k]
  }

  /** The stored profile values carry no surrounding blanks. */
  lemma ProfileStoredTrimmed(records: map<int, UserRecord>, clerkId: string, data: ProfileData, k: int)
    requires k in records && records[k].clerkId == clerkId
    ensures var u := WithProfile(records, clerkId, data)[k];
      u.firstName.Some? && Trim(u.firstName.value) == u.firstName.value
      && u.lastName.Some? && Trim(u.lastName.value) == u.lastName.value
      && u.identification.Some? && Trim(u.identification.value) == u.identification.value
  {
    var u := WithProfile(records, clerkId, data)[k];
    assert u.firstName == Some(Trim(data.firstName));
    assert u.lastName == Some(Trim(data.lastName));
    assert u.identification == Some(Trim(data.identification));
    TrimIdempotent(data.firstName);
    TrimIdempotent(data.lastName);
    TrimIdempotent(data.identification);
  }

  /** The completeness test looks at the untrimmed values: a field of blanks
      passes it and is stored as the empty string. */
  lemma BlankFieldStoredEmpty(records: map<int, UserRecord>, clerkId: string, k: int)
    requires k in records && records[k].clerkId == clerkId
    ensures ProfileComplete(ProfileData("Ana", "Ruiz", " "))
    ensures WithProfile(records, clerkId, ProfileData("Ana", "Ruiz", " "))[k].identification == Some("")
  {
    TrimEmptyIffBlank(" ");
  }
}

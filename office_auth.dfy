/**
 * Accounts and the audit log: AzureUser's optional, unique Microsoft id and
 * the append-only ActionLog the panel writes after every change.
 *
 * Neither model overrides full_clean into its save, so what is refused is
 * refused by the database (the unique index, the varchar length) or by
 * ActionLog.save itself.
 */
module OfficeAuth {
  import opened Validation
  import PanelUtils

  // ------------------------------------------------------------ ActionType

  /** ActionLog.ActionType: ADD = "ADD", DELETE = "DEL", UPDATE = "UP". */
  datatype ActionType = Add | Delete | Update
  {
    function Value(): (s: string)
      ensures 0 < |s| <= 3
    {
      match this
      case Add => "ADD"
      case Delete => "DEL"
      case Update => "UP"
    }
  }

  /** The stored string back to its choice; None for anything outside the choices. */
  function ParseActionType(s: string): (r: Option<ActionType>)
    ensures r.Some? <==> s == "ADD" || s == "DEL" || s == "UP"
    ensures r.Some? ==> r.value.Value() == s
  {
    if s == "ADD" then Some(Add)
    else if s == "DEL" then Some(Delete)
    else if s == "UP" then Some(Update)
    else None
  }

  /** Every choice is stored as a distinct string that reads back as itself, within max_length=3. */
  lemma ActionTypeRoundTrip(t: ActionType, u: ActionType)
    ensures ParseActionType(t.Value()) == Some(t)
    ensures t.Value() == u.Value() ==> t == u
  {
  }

  // ------------------------------------------------------------- ActionLog

  datatype LogEntry = LogEntry(
    user: nat,
    action: ActionType,
    alteredFields: map<string, PanelUtils.Change>,
    contentType: string,
    objectId: nat)

  /**
   * ActionLog.save as written: it is declared `save(*args, **kwargs)`, so the
   * body's `self` is an unbound name and every call raises NameError (the
   * ValidationError it would raise is not imported either).
   */
  function LogSaveErrorsAsWritten(pk: Option<nat>, e: LogEntry): (errs: seq<ErrorCode>)
    ensures errs == [AttributeMissing]
  {
    [AttributeMissing]
  }

  /** ActionLog.save as intended: a record that already has a pk may not be saved again. */
  function LogSaveErrors(pk: Option<nat>, e: LogEntry): (errs: seq<ErrorCode>)
    ensures errs == [] <==> pk.None?
    ensures errs != [] ==> errs == [LogActionForbidden]
  {
    if pk.Some? then [LogActionForbidden] else []
  }

  /** The log after one save: appended on success, unchanged otherwise. */
  function LogAfter(logs: seq<LogEntry>, pk: Option<nat>, e: LogEntry): (r: seq<LogEntry>)
    ensures pk.None? ==> r == logs + [e]
    ensures pk.Some? ==> r == logs
  {
    if LogSaveErrors(pk, e) == [] then logs + [e] else logs
  }

  /** One save request to the log. */
  datatype LogRequest = LogRequest(pk: Option<nat>, entry: LogEntry)

  function LogReplay(logs: seq<LogEntry>, reqs: seq<LogRequest>): seq<LogEntry> {
    if reqs == [] then logs
    else
      var last := reqs[|reqs| - 1];
      LogAfter(LogReplay(logs, reqs[..|reqs| - 1]), last.pk, last.entry)
  }

  /**
   * The log is append-only: after any sequence of saves the old entries are
   * still there, in place, and the log grew by exactly the saves without a pk.
   */
  lemma {:induction false} LogAppendOnly(logs: seq<LogEntry>, reqs: seq<LogRequest>)
    ensures logs <= LogReplay(logs, reqs)
    ensures |LogReplay(logs, reqs)| == |logs| + NewRecords(reqs)
  {
    if reqs != [] {
      LogAppendOnly(logs, reqs[..|reqs| - 1]);
    }
  }

  /** How many requests carry no pk. */
  function NewRecords(reqs: seq<LogRequest>): (n: nat)
    ensures n <= |reqs|
  {
    if reqs == [] then 0
    else NewRecords(reqs[..|reqs| - 1]) + (if reqs[|reqs| - 1].pk.None? then 1 else 0)
  }

  // ------------------------------------------------------------- AzureUser

  datatype AzureUser = AzureUser(microsoftUserId: Option<string>)

  /** Another user already holds this Microsoft id (NULLs never collide). */
  predicate MicrosoftIdTaken(users: seq<AzureUser>, pk: Option<nat>, id: string) {
    exists i :: 0 <= i < |users| && Some(i) != pk && users[i].microsoftUserId == Some(id)
  }

  /** AzureUser.save: the varchar(256) column and its unique index. */
  function UserSaveErrors(users: seq<AzureUser>, pk: Option<nat>, u: AzureUser): (errs: seq<ErrorCode>)
    ensures errs == [] <==>
      (pk.Some? ==> pk.value < |users|) &&
      (u.microsoftUserId.Some? ==> |u.microsoftUserId.value| <= 256 && !MicrosoftIdTaken(users, pk, u.microsoftUserId.value))
  {
    if pk.Some? && pk.value >= |users| then [RelatedObjectDoesNotExist]
    else match u.microsoftUserId
      case None => []
      case Some(id) =>
        if |id| > 256 then [MaxLength]
        else if MicrosoftIdTaken(users, pk, id) then [UniqueMicrosoftUserId]
        else []
  }

  function UsersAfter(users: seq<AzureUser>, pk: Option<nat>, u: AzureUser): seq<AzureUser> {
    if UserSaveErrors(users, pk, u) != [] then users
    else if pk.None? then users + [u]
    else users[pk.value := u]
  }

  /** Non-null Microsoft ids are unique among users. */
  ghost predicate MicrosoftIdsUnique(users: seq<AzureUser>) {
    forall i, j :: 0 <= i < j < |users| && users[i].microsoftUserId.Some? ==>
      users[i].microsoftUserId != users[j].microsoftUserId
  }

  lemma SaveUserKeepsUnique(users: seq<AzureUser>, pk: Option<nat>, u: AzureUser)
    requires MicrosoftIdsUnique(users)
    ensures MicrosoftIdsUnique(UsersAfter(users, pk, u))
  {
    var users' := UsersAfter(users, pk, u);
    if UserSaveErrors(users, pk, u) == [] {
      var k := if pk.Some? then pk.value else |users|;
      forall i, j | 0 <= i < j < |users'| && users'[i].microsoftUserId.Some?
        ensures users'[i].microsoftUserId != users'[j].microsoftUserId
      {
        if i == k {
          assert Some(j) != pk && users'[j] == users[j];
        } else if j == k {
          assert Some(i) != pk && users'[i] == users[i];
        } else {
          assert users'[i] == users[i] && users'[j] == users[j];
        }
      }
    }
  }

  /** Any number of users may have no Microsoft id (superusers created by hand). */
  lemma NullIdsNeverCollide(users: seq<AzureUser>)
    ensures UserSaveErrors(users, None, AzureUser(None)) == []
  {
  }

  // ------------------------------------------------- the store as an object

  /** The users table and the audit log. */
  class AuthStore {
    var users: seq<AzureUser>
    var logs: seq<LogEntry>

    ghost predicate Valid()
      reads this
    {
      MicrosoftIdsUnique(users)
    }

    constructor ()
      ensures Valid() && users == [] && logs == []
    {
      users, logs := [], [];
    }

    /** ActionLog.save (as intended): append a new record, refuse one with a pk. */
    method SaveLog(pk: Option<nat>, e: LogEntry) returns (r: Result<nat>)
      modifies this
      ensures users == old(users)
      ensures logs == LogAfter(old(logs), pk, e)
      ensures r == if pk.None? then Ok(|old(logs)|) else Err([LogActionForbidden])
    {
      var errs := LogSaveErrors(pk, e);
      if errs != [] {
        r := Err(errs);
      } else {
        r := Ok(|logs|);
        logs := logs + [e];
      }
    }

    /** AzureUser.save */
    method SaveUser(pk: Option<nat>, u: AzureUser) returns (r: Result<nat>)
      requires Valid()
      modifies this
      ensures Valid()
      ensures logs == old(logs)
      ensures users == UsersAfter(old(users), pk, u)
      ensures r.Ok? <==> UserSaveErrors(old(users), pk, u) == []
    {
      SaveUserKeepsUnique(users, pk, u);
      var errs := UserSaveErrors(users, pk, u);
      if errs != [] {
        r := Err(errs);
      } else if pk.None? {
        r := Ok(|users|);
        users := users + [u];
      } else {
        r := Ok(pk.value);
        users := users[pk.value := u];
      }
    }
  }
}

/** Session handling in the authentication context
    (src/contexts/AuthContext.jsx, `handleSession`): the profile role is looked
    up in a race against a two-second timer, and the signed-in user is the
    session user with its `role` replaced by the role that lookup resolves. */
module AuthSession {
  import opened Js
  import RoleBadge

  /** The code PostgREST reports when a single-row request does not match
      exactly one row. */
  const NoRowsCode := "PGRST116"

  /** The `profiles` row as selected (`role` only); the column may be null. */
  datatype ProfileRow = ProfileRow(role: Option<string>)

  /** The `error` of the lookup; its `code` may be absent. */
  datatype QueryError = QueryError(code: Option<string>)

  /** The value `Promise.race` settles with, or the rejection the surrounding
      `try` catches. Which one happens is decided by the store and the timer,
      outside the model. */
  datatype RaceOutcome =
    | TimedOut
    | Settled(data: Option<ProfileRow>, error: Option<QueryError>)
    | Rejected

  /** The auth user of a session: the fields the front-end reads. Its own
      `role` is the auth service's role, which the profile role replaces. */
  datatype SessionUser = SessionUser(id: string, email: Option<string>, role: Option<string>,
                                     metadataRole: Option<string>)

  /** A session; `user` may be missing. */
  datatype Session = Session(user: Option<SessionUser>)

  /** `user_metadata?.role || 'customer'`. */
  function Fallback(metadataRole: Option<string>): (r: string)
    ensures r != ""
    ensures Truthy(metadataRole) ==> r == metadataRole.value
    ensures !Truthy(metadataRole) ==> r == "customer"
  {
    Or(metadataRole, "customer")
  }

  /** The error test: an error is present and its code is not the no-rows code
      (an error without a code passes the test). */
  predicate IsRealError(outcome: RaceOutcome)
    requires outcome.Settled?
    ensures outcome.error.None? ==> !IsRealError(outcome)
    ensures outcome.error == Some(QueryError(Some(NoRowsCode))) ==> !IsRealError(outcome)
    ensures outcome.error == Some(QueryError(None)) ==> IsRealError(outcome)
    ensures outcome.error.Some? && outcome.error.value.code.Some? && outcome.error.value.code.value != NoRowsCode ==>
      IsRealError(outcome)
  {
    outcome.error.Some? && outcome.error.value.code != Some(NoRowsCode)
  }

  /** The role ladder for a settled or timed-out race. */
  function ResolveRole(outcome: RaceOutcome, metadataRole: Option<string>): (role: Option<string>)
    requires !outcome.Rejected?
    ensures outcome.TimedOut? ==> role == Some(Fallback(metadataRole))
    ensures outcome.Settled? && IsRealError(outcome) ==> role == Some(Fallback(metadataRole))
    ensures outcome.Settled? && !IsRealError(outcome) && outcome.data.Some? ==> role == outcome.data.value.role
    ensures outcome.Settled? && !IsRealError(outcome) && outcome.data.None? ==> role == Some(Fallback(metadataRole))
  {
    match outcome
    case TimedOut => Some(Fallback(metadataRole))
    case Settled(data, error) =>
      if IsRealError(outcome) then Some(Fallback(metadataRole))
      else if data.Some? then data.value.role
      else Some(Fallback(metadataRole))
  }

  /** The profile row is used exactly when the race settled with data and
      without a real error; every other outcome falls back. */
  predicate UsesProfile(outcome: RaceOutcome) {
    outcome.Settled? && !IsRealError(outcome) && outcome.data.Some?
  }

  /** Only a profile row can yield a null or empty role; a fallback is never
      empty, and with no usable metadata role it is customer. */
  lemma OnlyProfileRowsGiveEmptyRoles(outcome: RaceOutcome, metadataRole: Option<string>)
    requires !outcome.Rejected?
    ensures !Truthy(ResolveRole(outcome, metadataRole)) ==> UsesProfile(outcome)
    ensures !UsesProfile(outcome) && !Truthy(metadataRole) ==> ResolveRole(outcome, metadataRole) == Some("customer")
  {
  }

  /** A row's role wins over the metadata role even with a no-rows error
      attached, and data is not consulted after a timeout or a real error. */
  lemma ProfileRoleWins(row: ProfileRow, code: Option<string>, metadataRole: Option<string>)
    ensures code == Some(NoRowsCode) ==>
      ResolveRole(Settled(Some(row), Some(QueryError(code))), metadataRole) == row.role
    ensures code != Some(NoRowsCode) ==>
      ResolveRole(Settled(Some(row), Some(QueryError(code))), metadataRole) == Some(Fallback(metadataRole))
    ensures ResolveRole(TimedOut, metadataRole) == ResolveRole(Settled(None, None), metadataRole)
  {
  }

  /** A user whose profile could not be read gets the badge of its metadata
      role, and a customer badge when there is none. */
  lemma FallbackBadge(outcome: RaceOutcome, metadataRole: Option<string>)
    requires !outcome.Rejected? && !UsesProfile(outcome)
    ensures RoleBadge.NormalizeRole(ResolveRole(outcome, metadataRole))
         == (if Truthy(metadataRole) then RoleBadge.NormalizeRole(metadataRole) else "customer")
  {
  }

  /** The `user` and `loading` cells of the provider, and the profile lookups
      issued (by user id). */
  class AuthState {
    var user: Option<SessionUser>
    var loading: bool
    var lookups: seq<string>

    constructor ()
      ensures user == None && loading && lookups == []
    {
      user := None;
      loading := true;
      lookups := [];
    }

    /** `handleSession(currentSession)`; `outcome` is how the race ends when
        a lookup is made. */
    method HandleSession(session: Option<Session>, outcome: RaceOutcome)
      modifies this`user, this`loading, this`lookups
      ensures !loading
      ensures session.None? || session.value.user.None? ==> user == None && lookups == old(lookups)
      ensures session.Some? && session.value.user.Some? ==>
        var u := session.value.user.value;
        lookups == old(lookups) + [u.id] &&
        (outcome.Rejected? ==> user == old(user)) &&
        (!outcome.Rejected? ==> user == Some(u.(role := ResolveRole(outcome, u.metadataRole))))
    {
      if session.Some? && session.value.user.Some? {
        var u := session.value.user.value;
        lookups := lookups + [u.id];
        if !outcome.Rejected? {
          var role := ResolveRole(outcome, u.metadataRole);
          user := Some(u.(role := role));
        }
      } else {
        user := None;
      }
      loading := false;
    }
  }
}

/**
 * The pending-authentication registry of telegram.js: a module-level map from
 * an auth id to the state of one login attempt, the sweep that discards
 * attempts older than fifteen minutes, and the three request handlers that
 * create, advance and finish an attempt.
 *
 * The login coroutine that the telegram client runs for an attempt is not
 * modelled as a task: what it does after a request hands it a value is an
 * input to the handler (a `LoginOutcome` for a submitted code, a
 * `LoginResult` for a submitted password). The clock and the random auth id
 * are inputs too.
 */
module Registry {
  import opened Wrappers
  import opened Deferred
  import opened Js
  import Text

  /** Attempts older than this many milliseconds are discarded by the sweep. */
  const AUTH_TTL_MS: int := 15 * 60 * 1000
  const AUTH_EXPIRED: string := "AUTH_EXPIRED"
  const PASSWORD_INVALID: string := "PASSWORD_INVALID"
  const CODE_LENGTH: nat := 5
  const CODE_TYPE: string := "SMS"

  /** Whether the telegram client opened for an attempt is still connected. */
  datatype ClientState = Connected | Disconnected

  datatype User = User(id: string, firstName: string, lastName: string, username: string, phone: string)

  /** What a finished login hands back: the saved session string and the account. */
  datatype Session = Session(sessionString: string, user: User)

  /** One entry of the registry. `createdAt` is optional because the sweep reads it as `createdAt || 0`. */
  datatype PendingAuth = PendingAuth(
    authId: string,
    phoneNumber: string,
    client: ClientState,
    createdAt: Option<int>,
    codeDeferred: Cell<string>,
    passwordDeferred: Cell<string>,
    passwordRequested: Cell<bool>)

  /** How the login coroutine ends. */
  datatype LoginResult = LoggedIn(session: Session) | LoginFailed(message: string)

  /** What the login coroutine does first after it receives a code. */
  datatype LoginOutcome = Finished(result: LoginResult) | PasswordRequested

  datatype SendCodeReply = SendCodeReply(success: bool, authId: string, codeLength: nat, codeType: string)

  /** The two successful answers to a submitted code. */
  datatype CodeReply = NeedsTwoFactor(authId: string) | Authorized(session: Session)

  /** The age the sweep computes, `now - (createdAt || 0)`. */
  function Age(p: PendingAuth, now: int): int
  {
    now - match p.createdAt
      case Some(t) => t
      case None => 0
  }

  predicate IsExpired(p: PendingAuth, now: int)
  {
    Age(p, now) > AUTH_TTL_MS
  }

  /**
   * What the sweep does to an entry it discards: both deferreds rejected with
   * AUTH_EXPIRED (a no-op on one that already settled) and the client disconnected.
   */
  function Retire(p: PendingAuth): (q: PendingAuth)
    ensures q.authId == p.authId && q.phoneNumber == p.phoneNumber && q.createdAt == p.createdAt
    ensures q.passwordRequested == p.passwordRequested
    ensures q.client == Disconnected
    ensures IsSettled(q.codeDeferred) && IsSettled(q.passwordDeferred)
    ensures p.codeDeferred.Pending? ==> q.codeDeferred == Rejected(AUTH_EXPIRED)
    ensures p.passwordDeferred.Pending? ==> q.passwordDeferred == Rejected(AUTH_EXPIRED)
    ensures IsSettled(p.codeDeferred) ==> q.codeDeferred == p.codeDeferred
    ensures IsSettled(p.passwordDeferred) ==> q.passwordDeferred == p.passwordDeferred
  {
    p.(codeDeferred := Reject(p.codeDeferred, AUTH_EXPIRED),
       passwordDeferred := Reject(p.passwordDeferred, AUTH_EXPIRED),
       client := Disconnected)
  }

  /** The entries a sweep at `now` keeps, unchanged. */
  function Surviving(m: map<string, PendingAuth>, now: int): map<string, PendingAuth>
  {
    map k | k in m && !IsExpired(m[k], now) :: m[k]
  }

  /** The entries a sweep at `now` discards, in the state the sweep leaves them. */
  function Retired(m: map<string, PendingAuth>, now: int): map<string, PendingAuth>
  {
    map k | k in m && IsExpired(m[k], now) :: Retire(m[k])
  }

  /** The sweep splits the registry: every entry is either kept or retired, never both. */
  lemma SweepPartitions(m: map<string, PendingAuth>, now: int)
    ensures Surviving(m, now).Keys !! Retired(m, now).Keys
    ensures Surviving(m, now).Keys + Retired(m, now).Keys == m.Keys
    ensures |Surviving(m, now)| + |Retired(m, now)| == |m|
  {
  }

  /** The threshold is strict: an entry exactly fifteen minutes old survives, one a millisecond older does not. */
  lemma SweepBoundary(p: PendingAuth, t: int)
    ensures p.createdAt == Some(t) ==> !IsExpired(p, t + AUTH_TTL_MS) && IsExpired(p, t + AUTH_TTL_MS + 1)
    ensures p.createdAt.None? ==> (IsExpired(p, t) <==> t > AUTH_TTL_MS)
  {
  }

  /** A second sweep at the same time finds nothing to discard. */
  lemma SweepIdempotent(m: map<string, PendingAuth>, now: int)
    ensures Surviving(Surviving(m, now), now) == Surviving(m, now)
    ensures Retired(Surviving(m, now), now) == map[]
  {
  }

  /** A later sweep keeps no entry that an earlier one would have discarded. */
  lemma SweepMonotone(m: map<string, PendingAuth>, earlier: int, later: int)
    requires earlier <= later
    ensures Surviving(m, later).Keys <= Surviving(m, earlier).Keys
  {
  }

  /** A fresh attempt as `sendCode` registers it. */
  function NewAttempt(authId: string, phoneNumber: string, createdAt: int): (p: PendingAuth)
    ensures p.authId == authId && p.createdAt == Some(createdAt) && p.client == Connected
    ensures p.codeDeferred.Pending? && p.passwordDeferred.Pending? && p.passwordRequested.Pending?
  {
    PendingAuth(authId, phoneNumber, Connected, Some(createdAt), Pending, Pending, Pending)
  }

  /** An attempt after `verifyCode` resolved its code and the coroutine asked for a password. */
  function CodeAccepted(p: PendingAuth, code: string): PendingAuth
  {
    p.(codeDeferred := Resolve(p.codeDeferred, code), passwordRequested := Resolve(p.passwordRequested, true))
  }

  /** The states a registered attempt can be in: waiting for the code, or waiting for the password. */
  ghost predicate Registered(k: string, p: PendingAuth)
  {
    && p.authId == k
    && p.client == Connected
    && p.createdAt.Some?
    && p.passwordDeferred.Pending?
    && ((p.codeDeferred.Pending? && p.passwordRequested.Pending?)
        || (p.codeDeferred.Fulfilled? && p.passwordRequested.Fulfilled?))
  }

  /**
   * The only handler on an attempt's password promise is the `await` in the
   * client's password callback, which runs only once the password has been
   * requested. A password promise rejected before that has no handler: an
   * unhandled rejection.
   */
  predicate PasswordRejectionUnhandled(p: PendingAuth)
  {
    p.passwordRequested.Pending? && p.passwordDeferred.Rejected?
  }

  /**
   * What the sweep leaves of registered attempts: every retired attempt's
   * password promise is rejected with AUTH_EXPIRED, and that rejection goes
   * unhandled exactly for the attempts still waiting for their code.
   */
  lemma RetiredPasswordRejected(m: map<string, PendingAuth>, now: int)
    requires forall k :: k in m ==> Registered(k, m[k])
    ensures forall k :: k in Retired(m, now) ==> Retired(m, now)[k].passwordDeferred == Rejected(AUTH_EXPIRED)
    ensures forall k :: k in Retired(m, now) ==>
      (PasswordRejectionUnhandled(Retired(m, now)[k]) <==> m[k].passwordRequested.Pending?)
    ensures forall k :: k in Retired(m, now) && m[k].passwordRequested.Pending? ==> m[k].codeDeferred.Pending?
  {
  }

  /** How `verifyCode` answers when the login coroutine finishes. */
  function FinishedReply(result: LoginResult): Result<CodeReply, string>
  {
    match result
    case LoggedIn(s) => Success(Authorized(s))
    case LoginFailed(e) => Failure(e)
  }

  /** The catch block of `verify2FA`: a message mentioning a password, in any case, becomes PASSWORD_INVALID. */
  function RemapPasswordError(message: string): (r: string)
    ensures r == PASSWORD_INVALID <==> Text.Contains(Text.Upper(message), "PASSWORD")
    ensures r != PASSWORD_INVALID ==> r == message
  {
    PasswordInvalidMentionsPassword();
    if Text.Contains(Text.Upper(message), "PASSWORD") then PASSWORD_INVALID else message
  }

  /** The replacement message itself would be remapped to itself. */
  lemma PasswordInvalidMentionsPassword()
    ensures Text.Contains(Text.Upper(PASSWORD_INVALID), "PASSWORD")
  {
    var u := Text.Upper(PASSWORD_INVALID);
    assert u[..8] == "PASSWORD";
  }

  /** How `verify2FA` answers once the login coroutine has finished. */
  function PasswordReply(result: LoginResult): Result<Session, string>
  {
    match result
    case LoggedIn(s) => Success(s)
    case LoginFailed(e) => Failure(RemapPasswordError(e))
  }

  class PendingAuths {
    /** `pendingAuths`, keyed by auth id. */
    var entries: map<string, PendingAuth>

    ghost predicate Valid()
      reads this
    {
      forall k :: k in entries ==> Registered(k, entries[k])
    }

    constructor ()
      ensures Valid() && entries == map[]
    {
      entries := map[];
    }

    /**
     * `cleanupExpiredAuths`: visits every entry once and deletes the expired
     * ones. `retired` is how the deleted entries are left: their deferreds
     * rejected and their clients disconnected. The sweep itself never throws,
     * but for an attempt still waiting for its code the rejected password
     * promise has no handler (`PasswordRejectionUnhandled`).
     */
    method CleanupExpiredAuths(now: int) returns (ghost retired: map<string, PendingAuth>)
      requires Valid()
      modifies this
      ensures Valid()
      ensures entries == Surviving(old(entries), now)
      ensures retired == Retired(old(entries), now)
      ensures forall k :: k in retired ==> retired[k].passwordDeferred == Rejected(AUTH_EXPIRED)
      ensures forall k :: k in retired ==>
        (PasswordRejectionUnhandled(retired[k]) <==> old(entries)[k].passwordRequested.Pending?)
    {
      ghost var start := entries;
      var remaining := entries.Keys;
      retired := map[];
      while remaining != {}
        invariant remaining <= start.Keys
        invariant entries == map k | k in start && (k in remaining || !IsExpired(start[k], now)) :: start[k]
        invariant retired == map k | k in start && k !in remaining && IsExpired(start[k], now) :: Retire(start[k])
        decreases remaining
      {
        var k :| k in remaining;
        var p := entries[k];
        if IsExpired(p, now) {
          retired := retired[k := Retire(p)];
          entries := entries - {k};
        }
        remaining := remaining - {k};
      }
      RetiredPasswordRejected(start, now);
    }

    /**
     * `sendCode`: sweeps at `now`, then opens a client; if that fails the error
     * is thrown and nothing is registered, otherwise one entry is registered
     * under `authId`, created at `registeredAt` (the source reads the clock a
     * second time after connecting). An existing entry under the same id is
     * overwritten.
     */
    method SendCode(authId: string, phoneNumber: string, now: int, connectError: Option<string>, registeredAt: int)
      returns (r: Result<SendCodeReply, string>, ghost retired: map<string, PendingAuth>)
      requires Valid()
      modifies this
      ensures Valid()
      ensures retired == Retired(old(entries), now)
      ensures connectError.Some? ==> r == Failure(connectError.value) && entries == Surviving(old(entries), now)
      ensures connectError.None? ==>
        && r == Success(SendCodeReply(true, authId, CODE_LENGTH, CODE_TYPE))
        && entries == Surviving(old(entries), now)[authId := NewAttempt(authId, phoneNumber, registeredAt)]
    {
      retired := CleanupExpiredAuths(now);
      if connectError.Some? {
        return Failure(connectError.value), retired;
      }
      entries := entries[authId := NewAttempt(authId, phoneNumber, registeredAt)];
      r := Success(SendCodeReply(true, authId, CODE_LENGTH, CODE_TYPE));
    }

    /**
     * `verifyCode`: resolves the attempt's code deferred (ignored if it already
     * settled), then answers from what the login coroutine does next. If it
     * asks for a password the attempt stays registered; if it finishes, either
     * way, the attempt is deleted.
     */
    method VerifyCode(authId: string, code: string, outcome: LoginOutcome) returns (r: Result<CodeReply, string>)
      requires Valid()
      modifies this
      ensures Valid()
      ensures authId !in old(entries) ==> r == Failure(AUTH_EXPIRED) && entries == old(entries)
      ensures authId in old(entries) && outcome.PasswordRequested? ==>
        && r == Success(NeedsTwoFactor(authId))
        && entries == old(entries)[authId := CodeAccepted(old(entries)[authId], code)]
      ensures authId in old(entries) && outcome.Finished? ==>
        && r == FinishedReply(outcome.result)
        && entries == old(entries) - {authId}
    {
      if authId !in entries {
        return Failure(AUTH_EXPIRED);
      }
      var pending := entries[authId];
      pending := pending.(codeDeferred := Resolve(pending.codeDeferred, code));
      match outcome
      case PasswordRequested =>
        pending := pending.(passwordRequested := Resolve(pending.passwordRequested, true));
        entries := entries[authId := pending];
        r := Success(NeedsTwoFactor(authId));
      case Finished(result) =>
        entries := entries - {authId};
        r := FinishedReply(result);
    }

    /**
     * `verify2FA`: resolves the attempt's password deferred and waits for the
     * login coroutine to finish; the attempt is deleted whatever the result.
     * The source does not check that the attempt was asked for a password.
     */
    method Verify2FA(authId: string, password: string, result: LoginResult) returns (r: Result<Session, string>)
      requires Valid()
      modifies this
      ensures Valid()
      ensures authId !in old(entries) ==> r == Failure(AUTH_EXPIRED) && entries == old(entries)
      ensures authId in old(entries) ==> r == PasswordReply(result) && entries == old(entries) - {authId}
    {
      if authId !in entries {
        return Failure(AUTH_EXPIRED);
      }
      entries := entries - {authId};
      r := PasswordReply(result);
    }
  }

  datatype LogoutReply = LogoutReply(success: bool)

  /**
   * What `logout` does: the reply, whether it opened a client to log out
   * remotely, and whether that remote logout went through.
   */
  datatype LogoutEffect = LogoutEffect(reply: LogoutReply, clientCreated: bool, loggedOutRemotely: bool)

  /**
   * `logout`: a falsy session string answers at once, without a client;
   * otherwise a client logs out remotely, and an error there (`remoteError`)
   * is swallowed, so the reply is a success either way.
   */
  function Logout(sessionString: JsValue, remoteError: Option<string>): (r: LogoutEffect)
    ensures r.reply.success
    ensures r.clientCreated <==> Truthy(sessionString)
    ensures r.loggedOutRemotely <==> Truthy(sessionString) && remoteError.None?
    ensures r.loggedOutRemotely ==> r.clientCreated
  {
    if !Truthy(sessionString) then LogoutEffect(LogoutReply(true), false, false)
    else match remoteError {
      case Some(_) => LogoutEffect(LogoutReply(true), true, false)
      case None => LogoutEffect(LogoutReply(true), true, true)
    }
  }
}

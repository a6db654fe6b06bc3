/**
 * Walks through the pending-auth registry's whole login handshakes, written
 * as clients of its methods: each one starts from an empty registry and
 * states what the caller of the HTTP routes observes.
 */
module Scenarios {
  import opened Wrappers
  import opened Deferred
  import opened Registry
  import Http
  import Text

  /**
   * A login without a second factor: the code is accepted and the attempt is
   * gone, so a repeated code or a password for the same id is AUTH_EXPIRED,
   * whatever the login coroutine would have done.
   */
  method LoginWithoutSecondFactor(authId: string, phoneNumber: string, t: int, code: string, session: Session,
                                  laterOutcome: LoginOutcome, laterResult: LoginResult)
    returns (sent: Result<SendCodeReply, string>, verified: Result<CodeReply, string>,
             again: Result<CodeReply, string>, password: Result<Session, string>)
    ensures sent == Success(SendCodeReply(true, authId, CODE_LENGTH, CODE_TYPE))
    ensures verified == Success(Authorized(session))
    ensures again == Failure(AUTH_EXPIRED)
    ensures password == Failure(AUTH_EXPIRED)
  {
    var registry := new PendingAuths();
    ghost var retired;
    sent, retired := registry.SendCode(authId, phoneNumber, t, None, t);
    verified := registry.VerifyCode(authId, code, Finished(LoggedIn(session)));
    again := registry.VerifyCode(authId, code, laterOutcome);
    password := registry.Verify2FA(authId, "pw", laterResult);
  }

  /**
   * A login with a second factor and a wrong password: the code answer keeps
   * the attempt and carries the same id; the rejected password is reported
   * as PASSWORD_INVALID (400 "Senha incorreta" at the route) and removes the
   * attempt, so a retry is AUTH_EXPIRED, which that route answers with 500.
   */
  method WrongSecondFactor(authId: string, phoneNumber: string, t: int, code: string, wrong: string,
                           libraryMessage: string, retry: LoginResult)
    returns (codeReply: Result<CodeReply, string>, first: Result<Session, string>, second: Result<Session, string>)
    requires Text.Contains(Text.Upper(libraryMessage), "PASSWORD")
    ensures codeReply == Success(NeedsTwoFactor(authId))
    ensures first == Failure(PASSWORD_INVALID)
    ensures Http.ErrorReply(Http.PostVerify2FA, first.error) == Http.Reply(400, Http.WRONG_PASSWORD_TEXT)
    ensures second == Failure(AUTH_EXPIRED)
    ensures Http.ErrorReply(Http.PostVerify2FA, second.error) == Http.Reply(500, AUTH_EXPIRED)
  {
    var registry := new PendingAuths();
    var sent;
    ghost var retired;
    sent, retired := registry.SendCode(authId, phoneNumber, t, None, t);
    codeReply := registry.VerifyCode(authId, code, PasswordRequested);
    first := registry.Verify2FA(authId, wrong, LoginFailed(libraryMessage));
    Http.WrongPasswordEndToEnd(libraryMessage);
    second := registry.Verify2FA(authId, wrong, retry);
    Http.ExpiredAttemptReplies();
  }

  /**
   * A code submitted again while the attempt waits for its password is not
   * delivered: the code deferred still holds the first code.
   */
  method SecondCodeIsNotDelivered(authId: string, phoneNumber: string, t: int, firstCode: string, secondCode: string)
    returns (firstReply: Result<CodeReply, string>, secondReply: Result<CodeReply, string>, delivered: Cell<string>)
    ensures firstReply == Success(NeedsTwoFactor(authId)) && secondReply == firstReply
    ensures delivered == Fulfilled(firstCode)
  {
    var registry := new PendingAuths();
    var sent;
    ghost var retired;
    sent, retired := registry.SendCode(authId, phoneNumber, t, None, t);
    firstReply := registry.VerifyCode(authId, firstCode, PasswordRequested);
    secondReply := registry.VerifyCode(authId, secondCode, PasswordRequested);
    delivered := registry.entries[authId].codeDeferred;
  }

  /**
   * Expiry is lazy: an attempt registered at `t` still answers at any later
   * time until another `sendCode` sweeps. A sweep exactly fifteen minutes
   * later keeps it; one a millisecond after that rejects both its deferreds,
   * disconnects its client and removes it, so its code is AUTH_EXPIRED.
   */
  method ExpiryByLaterSendCode(authId: string, second: string, third: string, phoneNumber: string, t: int, code: string)
    returns (kept: bool, ghost swept: map<string, PendingAuth>, reply: Result<CodeReply, string>)
    requires authId != second && authId != third
    ensures kept
    ensures authId in swept && swept[authId].client == Disconnected
    ensures swept[authId].codeDeferred == Rejected(AUTH_EXPIRED)
    ensures swept[authId].passwordDeferred == Rejected(AUTH_EXPIRED)
    ensures PasswordRejectionUnhandled(swept[authId])
    ensures reply == Failure(AUTH_EXPIRED)
  {
    var registry := new PendingAuths();
    var sent;
    sent, swept := registry.SendCode(authId, phoneNumber, t, None, t);
    sent, swept := registry.SendCode(second, phoneNumber, t + AUTH_TTL_MS, None, t + AUTH_TTL_MS);
    kept := authId in registry.entries;
    sent, swept := registry.SendCode(third, phoneNumber, t + AUTH_TTL_MS + 1, None, t + AUTH_TTL_MS + 1);
    reply := registry.VerifyCode(authId, code, PasswordRequested);
  }
}

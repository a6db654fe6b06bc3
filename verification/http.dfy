/**
 * The request decisions of index.js: the shared-secret check every route
 * runs first, the required-field checks each route makes before it calls
 * the service, and the way the catch blocks turn a thrown error message
 * into a status code and an error body. A request either gets an answer
 * here or becomes exactly one call into the service; the service's own
 * answer is passed through as the 200 body.
 */
module Http {
  import opened Wrappers
  import opened Js
  import Text
  import Registry

  /** An error response: a status code and the body `{ error }`. */
  datatype Reply = Reply(status: nat, error: string)

  const UNAUTHORIZED: Reply := Reply(401, "Unauthorized")
  const CODE_INVALID_TEXT: string := "Código inválido"
  const CODE_EXPIRED_TEXT: string := "Código expirado"
  const SESSION_EXPIRED_TEXT: string := "Sessão expirada. Tente novamente."
  const WRONG_PASSWORD_TEXT: string := "Senha incorreta"
  /** The number of days `/messages/recent` uses when the body gives none. */
  const DEFAULT_DAYS: int := 7

  /** The routes guarded by the shared secret. */
  datatype Route =
    | PostSendCode | PostVerifyCode | PostVerify2FA | PostLogout
    | PostDialogs | PostUnread | PostRecent | PostSend

  /** A parsed JSON body; a missing field reads as undefined. */
  type Body = map<string, JsValue>

  function Field(body: Body, name: string): JsValue
  {
    if name in body then body[name] else Undefined
  }

  /** The service call a route makes, with the arguments it passes. */
  datatype ServiceCall =
    | SendCode(phoneNumber: JsValue)
    | VerifyCode(authId: JsValue, code: JsValue)
    | Verify2FA(authId: JsValue, password: JsValue)
    | Logout(sessionString: JsValue)
    | GetDialogs(sessionString: JsValue, limit: JsValue)
    | GetUnreadMessages(sessionString: JsValue)
    | GetRecentMessages(sessionString: JsValue, days: JsValue)
    | SendMessage(sessionString: JsValue, dialogId: JsValue, message: JsValue, replyToMsgId: JsValue)

  /** A route either answers by itself or calls the service. */
  datatype Decision = Answer(reply: Reply) | Call(call: ServiceCall)

  /** The route a service call belongs to. */
  function RouteOf(c: ServiceCall): Route
  {
    match c
    case SendCode(_) => PostSendCode
    case VerifyCode(_, _) => PostVerifyCode
    case Verify2FA(_, _) => PostVerify2FA
    case Logout(_) => PostLogout
    case GetDialogs(_, _) => PostDialogs
    case GetUnreadMessages(_) => PostUnread
    case GetRecentMessages(_, _) => PostRecent
    case SendMessage(_, _, _, _) => PostSend
  }

  /** The arguments a service call passes, in order. */
  function Arguments(c: ServiceCall): seq<JsValue>
  {
    match c
    case SendCode(p) => [p]
    case VerifyCode(a, code) => [a, code]
    case Verify2FA(a, pw) => [a, pw]
    case Logout(s) => [s]
    case GetDialogs(s, limit) => [s, limit]
    case GetUnreadMessages(s) => [s]
    case GetRecentMessages(s, days) => [s, days]
    case SendMessage(s, dialog, text, replyTo) => [s, dialog, text, replyTo]
  }

  /**
   * The body fields a route passes on unchanged, in argument order; the
   * recent reader passes `days || 7` after them.
   */
  function PassedFields(route: Route): seq<string>
  {
    match route
    case PostSendCode => ["phoneNumber"]
    case PostVerifyCode => ["authId", "code"]
    case PostVerify2FA => ["authId", "password"]
    case PostLogout => ["sessionString"]
    case PostDialogs => ["sessionString", "limit"]
    case PostUnread => ["sessionString"]
    case PostRecent => ["sessionString"]
    case PostSend => ["sessionString", "dialogId", "message", "replyToMsgId"]
  }

  /** The body fields each route insists on. */
  function RequiredFields(route: Route): seq<string>
  {
    match route
    case PostSendCode => ["phoneNumber"]
    case PostVerifyCode => ["authId", "code"]
    case PostVerify2FA => ["authId", "password"]
    case PostLogout => []
    case PostDialogs => ["sessionString"]
    case PostUnread => ["sessionString"]
    case PostRecent => ["sessionString"]
    case PostSend => ["sessionString", "dialogId", "message"]
  }

  /** The 400 message a route gives when a required field is missing. */
  function MissingFieldsMessage(route: Route): string
  {
    match route
    case PostSendCode => "Phone number required"
    case PostVerifyCode => "AuthId and code required"
    case PostVerify2FA => "AuthId and password required"
    case PostLogout => ""
    case PostDialogs => "Session string required"
    case PostUnread => "Session string required"
    case PostRecent => "Session string required"
    case PostSend => "Session string, dialogId, and message required"
  }

  /** `authenticateRequest`: rejects unless a secret is configured and the header equals it. */
  function Authenticate(secret: string, header: Option<string>): (r: Option<Reply>)
    ensures r.None? <==> secret != "" && header == Some(secret)
    ensures r.Some? ==> r.value == UNAUTHORIZED
  {
    if secret == "" || header != Some(secret) then Some(UNAUTHORIZED) else None
  }

  /** Each route's falsy-field test, written out as its handler writes it. */
  predicate FieldMissing(route: Route, body: Body)
  {
    match route
    case PostSendCode => !Truthy(Field(body, "phoneNumber"))
    case PostVerifyCode => !Truthy(Field(body, "authId")) || !Truthy(Field(body, "code"))
    case PostVerify2FA => !Truthy(Field(body, "authId")) || !Truthy(Field(body, "password"))
    case PostLogout => false
    case PostDialogs => !Truthy(Field(body, "sessionString"))
    case PostUnread => !Truthy(Field(body, "sessionString"))
    case PostRecent => !Truthy(Field(body, "sessionString"))
    case PostSend =>
      !Truthy(Field(body, "sessionString")) || !Truthy(Field(body, "dialogId")) || !Truthy(Field(body, "message"))
  }

  /** The written-out test rejects exactly when some field of the route's table is falsy. */
  lemma FieldMissingIff(route: Route, body: Body)
    ensures FieldMissing(route, body) <==> exists f :: f in RequiredFields(route) && !Truthy(Field(body, f))
  {
  }

  /**
   * The body of each route handler up to its service call: the route's
   * falsy-field test (`FieldMissing`), then the call with the arguments the
   * handler passes (`days || 7` for the recent reader).
   */
  function Dispatch(route: Route, body: Body): (d: Decision)
    ensures d.Answer? <==> exists f :: f in RequiredFields(route) && !Truthy(Field(body, f))
    ensures d.Answer? ==> d.reply == Reply(400, MissingFieldsMessage(route))
    ensures d.Call? ==> RouteOf(d.call) == route
    ensures d.Call? && route == PostRecent ==>
      && Truthy(d.call.days)
      && (Truthy(Field(body, "days")) ==> d.call.days == Field(body, "days"))
      && (!Truthy(Field(body, "days")) ==> d.call.days == Num(DEFAULT_DAYS))
  {
    FieldMissingIff(route, body);
    if FieldMissing(route, body) then Answer(Reply(400, MissingFieldsMessage(route)))
    else match route
      case PostSendCode => Call(SendCode(Field(body, "phoneNumber")))
      case PostVerifyCode => Call(VerifyCode(Field(body, "authId"), Field(body, "code")))
      case PostVerify2FA => Call(Verify2FA(Field(body, "authId"), Field(body, "password")))
      case PostLogout => Call(Logout(Field(body, "sessionString")))
      case PostDialogs => Call(GetDialogs(Field(body, "sessionString"), Field(body, "limit")))
      case PostUnread => Call(GetUnreadMessages(Field(body, "sessionString")))
      case PostRecent =>
        Call(GetRecentMessages(Field(body, "sessionString"), Or(Field(body, "days"), Num(DEFAULT_DAYS))))
      case PostSend =>
        Call(SendMessage(Field(body, "sessionString"), Field(body, "dialogId"), Field(body, "message"),
                         Field(body, "replyToMsgId")))
  }

  /**
   * A route that calls the service passes its body fields on unchanged, in
   * the order `PassedFields` lists them; only the recent reader adds one
   * computed argument, `days || 7`.
   */
  lemma DispatchPassesFields(route: Route, body: Body)
    requires Dispatch(route, body).Call?
    ensures var args := Arguments(Dispatch(route, body).call);
      && |args| == |PassedFields(route)| + (if route == PostRecent then 1 else 0)
      && forall i :: 0 <= i < |PassedFields(route)| ==> args[i] == Field(body, PassedFields(route)[i])
  {
    match route
    case PostSendCode =>
    case PostVerifyCode =>
    case PostVerify2FA =>
    case PostLogout =>
    case PostDialogs =>
    case PostUnread =>
    case PostRecent =>
    case PostSend =>
  }

  /**
   * A guarded request: the secret check runs first, so without the right
   * secret no route validates anything or calls the service.
   */
  function Handle(secret: string, header: Option<string>, route: Route, body: Body): (d: Decision)
    ensures secret == "" ==> d == Answer(UNAUTHORIZED)
    ensures header != Some(secret) ==> d == Answer(UNAUTHORIZED)
    ensures secret != "" && header == Some(secret) ==> d == Dispatch(route, body)
    ensures d.Call? ==> secret != "" && header == Some(secret) && RouteOf(d.call) == route
  {
    match Authenticate(secret, header)
    case Some(reply) => Answer(reply)
    case None => Dispatch(route, body)
  }

  /**
   * `/auth/logout` end to end: an authenticated request always reaches the
   * service with the body's session string, and the service answers success
   * whatever happens remotely, so the route's 500 branch is never taken.
   */
  lemma LogoutEndToEnd(secret: string, body: Body, remoteError: Option<string>)
    requires secret != ""
    ensures Handle(secret, Some(secret), PostLogout, body) == Call(Logout(Field(body, "sessionString")))
    ensures Registry.Logout(Field(body, "sessionString"), remoteError).reply.success
    ensures Registry.Logout(Field(body, "sessionString"), remoteError).reply
         == Registry.Logout(Field(body, "sessionString"), None).reply
  {
  }

  /** The catch block of `/auth/verify-code`: three substring tests, first match wins. */
  function VerifyCodeErrorReply(message: string): (r: Reply)
    ensures r.status == 400 <==>
      Text.Contains(message, "PHONE_CODE_INVALID") || Text.Contains(message, "PHONE_CODE_EXPIRED")
      || Text.Contains(message, "AUTH_EXPIRED")
    ensures r.status != 400 ==> r == Reply(500, message)
    ensures Text.Contains(message, "PHONE_CODE_INVALID") ==> r.error == CODE_INVALID_TEXT
    ensures !Text.Contains(message, "PHONE_CODE_INVALID") && Text.Contains(message, "PHONE_CODE_EXPIRED")
      ==> r.error == CODE_EXPIRED_TEXT
    ensures (!Text.Contains(message, "PHONE_CODE_INVALID") && !Text.Contains(message, "PHONE_CODE_EXPIRED")
             && Text.Contains(message, "AUTH_EXPIRED")) ==> r.error == SESSION_EXPIRED_TEXT
  {
    if Text.Contains(message, "PHONE_CODE_INVALID") then Reply(400, CODE_INVALID_TEXT)
    else if Text.Contains(message, "PHONE_CODE_EXPIRED") then Reply(400, CODE_EXPIRED_TEXT)
    else if Text.Contains(message, "AUTH_EXPIRED") then Reply(400, SESSION_EXPIRED_TEXT)
    else Reply(500, message)
  }

  /** The catch block of `/auth/verify-2fa`: a case-sensitive test for "PASSWORD". */
  function Verify2FAErrorReply(message: string): (r: Reply)
    ensures r.status == 400 <==> Text.Contains(message, "PASSWORD")
    ensures r.status == 400 ==> r.error == WRONG_PASSWORD_TEXT
    ensures r.status != 400 ==> r == Reply(500, message)
  {
    if Text.Contains(message, "PASSWORD") then Reply(400, WRONG_PASSWORD_TEXT)
    else Reply(500, message)
  }

  /** The catch block of each route: every route but the two above answers 500 with the raw message. */
  function ErrorReply(route: Route, message: string): (r: Reply)
    ensures route !in {PostVerifyCode, PostVerify2FA} ==> r == Reply(500, message)
    ensures r.status == 400 || r == Reply(500, message)
  {
    match route
    case PostVerifyCode => VerifyCodeErrorReply(message)
    case PostVerify2FA => Verify2FAErrorReply(message)
    case _ => Reply(500, message)
  }

  /** The registry's AUTH_EXPIRED mentions no password. */
  lemma AuthExpiredMentionsNoPassword()
    ensures !Text.Contains(Registry.AUTH_EXPIRED, "PASSWORD")
  {
    var e := Registry.AUTH_EXPIRED;
    // An eight-letter word can only start in "AUTH_", which has no 'P'.
    assert e[..5] == "AUTH_";
    forall i | 0 <= i <= |e| - 8 ensures e[i] != 'P' {
      assert e[i] == e[..5][i];
    }
    Text.NotContainsWithoutHead(e, "PASSWORD");
  }

  /**
   * An unknown or swept attempt: the registry throws AUTH_EXPIRED, which
   * `/auth/verify-code` answers with 400 but `/auth/verify-2fa` answers with
   * 500 and the raw message, since it only looks for "PASSWORD".
   */
  lemma ExpiredAttemptReplies()
    ensures ErrorReply(PostVerifyCode, Registry.AUTH_EXPIRED) == Reply(400, SESSION_EXPIRED_TEXT)
    ensures ErrorReply(PostVerify2FA, Registry.AUTH_EXPIRED) == Reply(500, Registry.AUTH_EXPIRED)
  {
    var e := Registry.AUTH_EXPIRED;
    Text.NotContainsLonger(e, "PHONE_CODE_INVALID");
    Text.NotContainsLonger(e, "PHONE_CODE_EXPIRED");
    assert e[..|e|] == e;
    AuthExpiredMentionsNoPassword();
  }

  /**
   * End to end, `/auth/verify-2fa` answers a failed login with 400 "Senha
   * incorreta" exactly when the library's message mentions a password in
   * any letter case: the service's remapping catches lower-case mentions,
   * and a message it leaves alone has no upper-case "PASSWORD" either.
   */
  lemma {:induction false} WrongPasswordEndToEnd(message: string)
    ensures Verify2FAErrorReply(Registry.RemapPasswordError(message)).status == 400
        <==> Text.Contains(Text.Upper(message), "PASSWORD")
  {
    if Text.Contains(Text.Upper(message), "PASSWORD") {
      var p := Registry.PASSWORD_INVALID;
      assert p[..8] == "PASSWORD";
    } else {
      assert Text.Upper("PASSWORD") == "PASSWORD";
      if Text.Contains(message, "PASSWORD") {
        Text.UpperKeepsContains(message, "PASSWORD");
      }
    }
  }
}

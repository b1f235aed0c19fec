/**
 * The session flow of the dashboard: validating the stored token
 * (`validateJWT`), logging out (`logOut`) and signing in (`signIn`). Every
 * network call is an input: the reply the server gave, or the failure to
 * reach it. The page state is the cookie text, the visibility of the
 * sign-in form, the content panel and the error banner, the `disabled` flag
 * of the log-out button, the text of the message slot, and the requests
 * sent so far.
 *
 * The functions state each step on a `Page` value; the `Dashboard` class
 * holds the same state in fields and changes it step by step, as the page
 * does, and each of its methods is proved to reach the state the function
 * gives.
 */
module Session {
  import opened Cookie

  /** What the token-validation query (`query { user { id } }`) came back with. */
  datatype ValidationReply =
    | NetworkFailure      // `fetch` threw
    | ResponseWithErrors  // the reply carries an `errors` list
    | ResponseOk          // the reply carries no `errors`

  /** What the sign-in endpoint came back with. */
  datatype SignInReply =
    | SignInNetworkFailure           // `fetch` threw; nothing catches it, so `signIn` stops there
    | SignInRejected(error: string)  // status not ok; `error` field of the body
    | SignInOk(data: string)         // status ok; the parsed body is the token

  /** A request the page sends. */
  datatype Request =
    | ValidationQuery(bearer: string)                  // the validation query
    | ProfileQuery(token: Option<string>)              // `showInfo`'s compound query
    | Credentials(username: string, password: string)  // the sign-in call

  datatype Page = Page(
    cookie: string,
    signInShown: bool,
    contentShown: bool,
    logOutDisabled: bool,
    errorShown: bool,
    message: string,
    sent: seq<Request>)

  /** The page after `showInfo` has run up to its first `await`: content shown and the profile query sent. */
  function InfoShown(p: Page): (r: Page)
    ensures r.contentShown && r.cookie == p.cookie
    ensures r.sent == p.sent + [ProfileQuery(GetToken(p.cookie))]
    ensures r.(contentShown := p.contentShown, sent := p.sent) == p
  {
    p.(contentShown := true, sent := p.sent + [ProfileQuery(GetToken(p.cookie))])
  }

  /**
   * `validateJWT()` with the validation query answered by `reply`: the page
   * afterwards, and the value returned.
   */
  function Validated(p: Page, reply: ValidationReply): (r: (Page, bool))
    // true exactly when a token was stored and the reply came back without errors
    ensures r.1 <==> HasToken(GetToken(p.cookie)) && reply == ResponseOk
    // every false path ends with log-out disabled and no usable token
    ensures !r.1 ==> r.0.logOutDisabled && !HasToken(GetToken(r.0.cookie))
    // the true path hides sign-in, enables log-out and shows the content, with the cookie kept
    ensures r.1 ==> !r.0.signInShown && !r.0.logOutDisabled && r.0.contentShown && r.0.cookie == p.cookie
    // a missing token shows sign-in, sends nothing and changes nothing else
    ensures !HasToken(GetToken(p.cookie)) ==> r.0 == p.(signInShown := true, logOutDisabled := true)
    // a stored token is sent with the validation query, and with the profile query when valid
    ensures HasToken(GetToken(p.cookie)) ==>
      var bearer := GetToken(p.cookie).value;
      r.0.sent == p.sent + [ValidationQuery(bearer)] + (if r.1 then [ProfileQuery(Some(bearer))] else [])
    // an unreachable server shows the error banner and leaves the sign-in form as it was
    ensures HasToken(GetToken(p.cookie)) && reply == NetworkFailure ==>
      r.0.errorShown && r.0.signInShown == p.signInShown && GetToken(r.0.cookie).None?
    // an error reply shows the sign-in form and clears the token
    ensures HasToken(GetToken(p.cookie)) && reply == ResponseWithErrors ==>
      r.0.signInShown && GetToken(r.0.cookie).None?
    // a failed validation of a stored token leaves the content panel as it was
    ensures HasToken(GetToken(p.cookie)) && !r.1 ==> r.0.contentShown == p.contentShown
    // only an unreachable server touches the error banner: a banner already up stays up
    ensures reply != NetworkFailure ==> r.0.errorShown == p.errorShown
    ensures r.0.message == p.message
  {
    var token := GetToken(p.cookie);
    if !HasToken(token) then
      (p.(signInShown := true, logOutDisabled := true), false)
    else
      var queried := p.(sent := p.sent + [ValidationQuery(token.value)]);
      match reply
      case NetworkFailure =>
        (queried.(cookie := StripToken(p.cookie), errorShown := true, logOutDisabled := true), false)
      case ResponseWithErrors =>
        (queried.(cookie := StripToken(p.cookie), signInShown := true, logOutDisabled := true), false)
      case ResponseOk =>
        (InfoShown(queried.(signInShown := false)).(logOutDisabled := false), true)
  }

  /** `logOut()`: writes `token=`, shows sign-in, hides the content and disables log-out. */
  function LoggedOut(p: Page): (r: Page)
    ensures GetToken(r.cookie) == Some("") && !HasToken(GetToken(r.cookie))
    ensures r.signInShown && !r.contentShown && r.logOutDisabled
    ensures r.sent == p.sent && r.message == p.message && r.errorShown == p.errorShown
  {
    EmptyTokenCookie();
    p.(cookie := TokenCookie(""), signInShown := true, contentShown := false, logOutDisabled := true)
  }

  /**
   * `signIn(e)` with the re-validation answered by `check` and the sign-in
   * call, if it is made, answered by `reply`.
   */
  function SignedIn(p: Page, check: ValidationReply, username: string, password: string, reply: SignInReply): (r: Page)
    // a valid stored session short-circuits: no credentials are sent
    ensures Validated(p, check).1 ==> r == Validated(p, check).0
    // otherwise the credentials are sent once, after the validation attempt
    ensures !Validated(p, check).1 ==>
      var q := Validated(p, check).0;
      r.sent == q.sent + [Credentials(username, password)]
        + (if reply.SignInOk? then [ProfileQuery(GetToken(TokenCookie(reply.data)))] else [])
    // an unreachable server ends the call right after the credentials are sent
    ensures !Validated(p, check).1 && reply.SignInNetworkFailure? ==>
      var q := Validated(p, check).0;
      r == q.(sent := q.sent + [Credentials(username, password)])
    // a rejected sign-in shows the message, keeps the cookie and keeps log-out disabled
    ensures !Validated(p, check).1 && reply.SignInRejected? ==>
      var q := Validated(p, check).0;
      r == q.(message := reply.error, logOutDisabled := true, sent := r.sent)
      && !HasToken(GetToken(r.cookie))
    // an accepted sign-in stores the token, hides sign-in, enables log-out and shows the content
    ensures !Validated(p, check).1 && reply.SignInOk? ==>
      r.cookie == TokenCookie(reply.data) && !r.signInShown && !r.logOutDisabled && r.contentShown
    // an accepted sign-in leaves the message slot and the error banner as validation left them
    ensures !Validated(p, check).1 && reply.SignInOk? ==>
      r.message == Validated(p, check).0.message && r.errorShown == Validated(p, check).0.errorShown
  {
    var (q, valid) := Validated(p, check);
    if valid then q
    else
      var asked := q.(sent := q.sent + [Credentials(username, password)]);
      match reply
      case SignInNetworkFailure =>
        asked
      case SignInRejected(error) =>
        asked.(message := error, logOutDisabled := true)
      case SignInOk(data) =>
        InfoShown(asked.(cookie := TokenCookie(data), signInShown := false, logOutDisabled := false))
  }

  /** `logOut()` followed by `validateJWT()` always ends logged out and sends nothing. */
  lemma LogOutThenValidate(p: Page, reply: ValidationReply)
    ensures var (q, valid) := Validated(LoggedOut(p), reply);
      && !valid
      && q.signInShown && !q.contentShown && q.logOutDisabled
      && q.sent == p.sent
  {
  }

  /**
   * A sign-in that stores a well-formed token is followed by a successful
   * validation, and a second sign-in then sends no credentials: its requests
   * are only the validation and profile queries with that token.
   */
  lemma {:induction false} SignInThenValidate(
    p: Page, check: ValidationReply, username: string, password: string, token: string,
    username2: string, password2: string, reply2: SignInReply)
    requires !Validated(p, check).1
    requires token != "" && ';' !in token && '=' !in token
    ensures var s := SignedIn(p, check, username, password, SignInOk(token));
      && Validated(s, ResponseOk).1
      && SignedIn(s, ResponseOk, username2, password2, reply2).sent
         == s.sent + [ValidationQuery(token), ProfileQuery(Some(token))]
  {
    TokenCookieRoundTrip(token);
  }

  /** The page as the class keeps it, in fields that its methods change in place. */
  class Dashboard {
    var cookie: string
    var signInShown: bool
    var contentShown: bool
    var logOutDisabled: bool
    var errorShown: bool
    var message: string
    var sent: seq<Request>

    function State(): Page
      reads this
    {
      Page(cookie, signInShown, contentShown, logOutDisabled, errorShown, message, sent)
    }

    /** A page in the given state (the document's initial markup is not part of this model). */
    constructor (initial: Page)
      ensures State() == initial
    {
      cookie := initial.cookie;
      signInShown := initial.signInShown;
      contentShown := initial.contentShown;
      logOutDisabled := initial.logOutDisabled;
      errorShown := initial.errorShown;
      message := initial.message;
      sent := initial.sent;
    }

    /** The synchronous start of `showInfo()`. */
    method ShowInfo()
      modifies this
      ensures State() == InfoShown(old(State()))
    {
      var token := GetToken(cookie);
      contentShown := true;
      sent := sent + [ProfileQuery(token)];
    }

    method ValidateJWT(reply: ValidationReply) returns (valid: bool)
      modifies this
      ensures (State(), valid) == Validated(old(State()), reply)
    {
      var token := GetToken(cookie);
      if !HasToken(token) {
        signInShown := true;
        logOutDisabled := true;
        return false;
      }
      sent := sent + [ValidationQuery(token.value)];
      match reply {
        case NetworkFailure =>
          cookie := StripToken(cookie);
          errorShown := true;
          logOutDisabled := true;
          return false;
        case ResponseWithErrors =>
          cookie := StripToken(cookie);
          signInShown := true;
          logOutDisabled := true;
          return false;
        case ResponseOk =>
      }
      signInShown := false;
      ShowInfo();
      logOutDisabled := false;
      return true;
    }

    method LogOut()
      modifies this
      ensures State() == LoggedOut(old(State()))
    {
      cookie := TokenCookie("");
      signInShown := true;
      contentShown := false;
      logOutDisabled := true;
    }

    method SignIn(check: ValidationReply, username: string, password: string, reply: SignInReply)
      modifies this
      ensures State() == SignedIn(old(State()), check, username, password, reply)
    {
      var valid := ValidateJWT(check);
      if valid {
        return;
      }
      sent := sent + [Credentials(username, password)];
      match reply {
        case SignInNetworkFailure =>
          return;
        case SignInRejected(error) =>
          message := error;
          logOutDisabled := true;
          return;
        case SignInOk(_) =>
      }
      cookie := TokenCookie(reply.data);
      signInShown := false;
      logOutDisabled := false;
      ShowInfo();
    }
  }
}

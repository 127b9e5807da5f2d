/**
 * E-mail one-time-password sign-up and password login. The sign-up form is
 * checked, an OTP is mailed and the form kept in the session as the pending
 * user; a matching OTP turns the pending user into a stored user. Login looks
 * the user up by e-mail and compares the plain-text password.
 */
module Auth {
  import opened Common
  import opened Strings
  import opened Models

  /**
   * `generateOtp` for a random draw `r` in [0, 1): the decimal text of
   * `floor(100000 + r * 900000)`.
   */
  function GenerateOtp(r: real): (otp: string)
    requires 0.0 <= r < 1.0
    ensures |otp| == 6 && AllDigits(otp) && otp[0] != '0'
    ensures 100000 <= ParseDigits(otp) <= 999999
  {
    var n := (100000.0 + r * 900000.0).Floor;
    assert 100000 <= n <= 999999 by {
      assert 100000.0 <= 100000.0 + r * 900000.0 < 1000000.0;
    }
    assert Pow10(5) == 100000 && Pow10(6) == 1000000;
    NatToStringLength(n, 6);
    ParseNatToString(n);
    NatToString(n)
  }

  /** The sign-up form as posted; any field may be absent. */
  datatype SignupForm = SignupForm(name: Option<string>, username: Option<string>, email: Option<string>, password: Option<string>)

  /** The form kept in the session while its OTP is outstanding. */
  datatype PendingUser = PendingUser(name: Option<string>, username: Option<string>, email: Option<string>, password: Option<string>, otp: string)

  datatype Session = Session(pending: Option<PendingUser>, user: Option<User>)

  /**
   * The e-mail pattern of `/send-otp`. An absent address is matched as the
   * text "undefined", which does not match.
   */
  predicate EmailAccepted(email: Option<string>) {
    email.Some? && IsGmail(email.value)
  }

  /** `findOne` on one field: an absent value matches no stored user, since every stored user has the field. */
  predicate EmailTaken(users: seq<User>, email: Option<string>) {
    email.Some? && exists i :: 0 <= i < |users| && users[i].email == email.value
  }

  predicate UsernameTaken(users: seq<User>, username: Option<string>) {
    username.Some? && exists i :: 0 <= i < |users| && users[i].username == username.value
  }

  datatype SendOtpReply =
    | InvalidEmail       // 400
    | EmailExists        // 400
    | UsernameExists     // 400
    | MailFailed         // 500
    | OtpSent(pending: PendingUser) // 200

  function StatusOfSend(r: SendOtpReply): int {
    match r
    case OtpSent(_) => 200
    case MailFailed => 500
    case _ => 400
  }

  /**
   * `/send-otp`: the address must be a Gmail address, then it must be new,
   * then the username must be new; the first failing check decides. Then the
   * OTP `otp` is mailed (`mailOk` says whether sending worked) and the form is
   * kept with it as the pending user.
   */
  function SendOtp(form: SignupForm, users: seq<User>, otp: string, mailOk: bool): (r: SendOtpReply)
    ensures r == InvalidEmail <==> !EmailAccepted(form.email)
    ensures r == EmailExists <==> EmailAccepted(form.email) && EmailTaken(users, form.email)
    ensures r == UsernameExists <==> EmailAccepted(form.email) && !EmailTaken(users, form.email) && UsernameTaken(users, form.username)
    ensures r.OtpSent? <==> EmailAccepted(form.email) && !EmailTaken(users, form.email) && !UsernameTaken(users, form.username) && mailOk
    ensures r.OtpSent? ==> r.pending == PendingUser(form.name, form.username, form.email, form.password, otp)
  {
    if !EmailAccepted(form.email) then InvalidEmail
    else if EmailTaken(users, form.email) then EmailExists
    else if UsernameTaken(users, form.username) then UsernameExists
    else if !mailOk then MailFailed
    else OtpSent(PendingUser(form.name, form.username, form.email, form.password, otp))
  }

  const NewUserRank := "Fapper"

  datatype VerifyReply = InvalidOtp | Registered(user: User) | ServerError

  function StatusOfVerify(r: VerifyReply): int {
    match r
    case InvalidOtp => 400
    case Registered(_) => 201
    case ServerError => 500
  }

  function PendingUserFields(p: PendingUser): UserFields {
    UserFields(p.name, p.username, p.email, p.password, None, Some(NewUserRank), None)
  }

  /**
   * `/verify-otp`: refused when nothing is pending, the pending OTP is empty
   * or the posted OTP differs. Otherwise the pending form becomes a user of
   * rank "Fapper"; if the user schema rejects it the reply is a server error
   * and the session is untouched, else the session logs the user in and the
   * pending form is dropped.
   */
  function VerifyOtp(session: Session, otp: Option<string>): (r: (VerifyReply, Session))
    ensures r.0 == InvalidOtp <==> session.pending.None? || session.pending.value.otp == "" || otp != Some(session.pending.value.otp)
    ensures r.0 != InvalidOtp ==> (r.0.Registered? <==> NewUser(PendingUserFields(session.pending.value)).Ok?)
    ensures r.0.Registered? ==> r.0.user.rank == NewUserRank && r.1 == Session(None, Some(r.0.user))
    ensures !r.0.Registered? ==> r.1 == session
  {
    if session.pending.None? || session.pending.value.otp == "" || otp != Some(session.pending.value.otp) then
      (InvalidOtp, session)
    else
      match NewUser(PendingUserFields(session.pending.value))
      case Err(_) => (ServerError, session)
      case Ok(u) => (Registered(u), Session(None, Some(u)))
  }

  datatype LoginReply = UserNotFound | InvalidPassword | LoggedIn(user: User)

  /** The first stored user with this address (the one `findOne` returns). */
  function FindByEmail(users: seq<User>, email: string): (r: Option<nat>)
    ensures r.Some? ==> r.value < |users| && users[r.value].email == email
    ensures r.Some? ==> forall j :: 0 <= j < r.value ==> users[j].email != email
    ensures r.None? <==> forall j :: 0 <= j < |users| ==> users[j].email != email
    decreases |users|
  {
    if |users| == 0 then None
    else if users[0].email == email then Some(0)
    else
      var r := FindByEmail(users[1..], email);
      assert forall j :: 1 <= j < |users| ==> users[j] == users[1..][j - 1];
      if r.None? then None else Some(r.value + 1)
  }

  /**
   * `/login`: "User not found" when no user has the address, "Invalid
   * Password" when the first such user's password differs, else the session
   * logs that user in.
   */
  function Login(session: Session, users: seq<User>, email: Option<string>, password: Option<string>): (r: (LoginReply, Session))
    ensures r.0 == UserNotFound <==> email.None? || FindByEmail(users, email.value).None?
    ensures r.0.LoggedIn? <==> email.Some? && FindByEmail(users, email.value).Some?
                               && password == Some(users[FindByEmail(users, email.value).value].password)
    ensures r.0.LoggedIn? ==> r.0.user.email == email.value && Some(r.0.user.password) == password
                              && r.1 == session.(user := Some(r.0.user))
    ensures !r.0.LoggedIn? ==> r.1 == session
  {
    if email.None? then (UserNotFound, session)
    else match FindByEmail(users, email.value)
      case None => (UserNotFound, session)
      case Some(i) =>
        if password != Some(users[i].password) then (InvalidPassword, session)
        else (LoggedIn(users[i]), session.(user := Some(users[i])))
  }

  /**
   * The whole sign-up: a form with every field filled and a Gmail address
   * that is new passes `/send-otp`, the mailed OTP passes `/verify-otp`, and
   * the registered user can then log in with the form's address and password.
   */
  lemma SignupThenLogin(form: SignupForm, users: seq<User>, otp: string, session: Session)
    requires Truthy(form.name) && Truthy(form.username) && Truthy(form.password)
    requires EmailAccepted(form.email) && !EmailTaken(users, form.email) && !UsernameTaken(users, form.username)
    requires otp != ""
    ensures SendOtp(form, users, otp, true).OtpSent?
    ensures var pending := SendOtp(form, users, otp, true).pending;
            var (reply, after) := VerifyOtp(session.(pending := Some(pending)), Some(otp));
            && reply.Registered?
            && reply.user.email == form.email.value && reply.user.username == form.username.value
            && reply.user.rank == NewUserRank
            && Login(after, users + [reply.user], form.email, form.password).0 == LoggedIn(reply.user)
  {
    var pending := SendOtp(form, users, otp, true).pending;
    var (reply, after) := VerifyOtp(session.(pending := Some(pending)), Some(otp));
    var all := users + [reply.user];
    assert Truthy(form.email);
    assert forall j :: 0 <= j < |users| ==> all[j].email != form.email.value;
    assert all[|users|] == reply.user;
    assert FindByEmail(all, form.email.value) == Some(|users|);
  }
}

/** The handlers of `routes/auth.js`: registration, login and the broker
    application.  Password hashing and comparison are parameters (the user
    model's save hook and `comparePassword`); the request validators'
    email-format verdict is an input. */
module AuthRoutes {
  import opened Optional
  import opened Seqs
  import opened Users
  import opened MemoryDB
  import opened Http

  const DuplicateEmailMessage: string := "이미 존재하는 이메일입니다."
  const RegisteredMessage: string := "회원가입이 완료되었습니다."
  const BadCredentialsMessage: string := "이메일 또는 비밀번호가 올바르지 않습니다."
  const LoggedInMessage: string := "로그인 성공"
  const UserNotFoundMessage: string := "사용자를 찾을 수 없습니다."
  const AppliedMessage: string := "중개사 인증 신청이 완료되었습니다. 관리자 승인을 기다려주세요."

  /** The shortest password registration accepts. */
  const MinPasswordLength: nat := 6

  /** A registration body.  `emailOk` is the email-format validator's verdict
      on `email`, which is already in normalised form. */
  datatype RegisterRequest = RegisterRequest(
    email: Option<string>, emailOk: bool, password: Option<string>,
    name: Option<string>, phone: Option<string>,
    userType: Option<string>, brokerInfo: Option<BrokerInfo>)

  datatype LoginRequest = LoginRequest(email: Option<string>, emailOk: bool, password: Option<string>)

  datatype VerifyRequest = VerifyRequest(licenseNumber: Option<string>, companyName: Option<string>,
                                         address: Option<string>)

  /** The registration validators: a well-formed email, a password of at
      least six characters, a non-empty name and phone. */
  predicate RegisterValid(req: RegisterRequest) {
    && req.email.Some? && req.emailOk
    && req.password.Some? && |req.password.value| >= MinPasswordLength
    && TruthyText(req.name) && TruthyText(req.phone)
  }

  predicate LoginValid(req: LoginRequest) {
    req.email.Some? && req.emailOk && TruthyText(req.password)
  }

  predicate VerifyValid(req: VerifyRequest) {
    TruthyText(req.licenseNumber) && TruthyText(req.companyName) && TruthyText(req.address)
  }

  /** The role a registration records: the one asked for when it is truthy,
      otherwise an ordinary member. */
  function RoleOf(userType: Option<string>): (r: string)
    ensures TruthyText(userType) ==> r == userType.value
    ensures !TruthyText(userType) ==> r == MemberRole
  {
    if TruthyText(userType) then userType.value else MemberRole
  }

  /** The profile a registration stores.  Broker details are kept only when
      the requested role is exactly the broker role. */
  function NewProfile(req: RegisterRequest, hash: string -> string): (p: Profile)
    requires RegisterValid(req)
    ensures p.email == req.email && p.password == Some(hash(req.password.value))
    ensures p.name == req.name && p.phone == req.phone
    ensures p.userType == Some(RoleOf(req.userType))
    ensures p.brokerInfo.Some? <==> req.userType == Some(BrokerRole) && req.brokerInfo.Some?
    ensures p.brokerInfo.Some? ==> p.brokerInfo == req.brokerInfo
  {
    Profile(req.email, Some(hash(req.password.value)), req.name, req.phone, Some(RoleOf(req.userType)),
            if req.userType == Some(BrokerRole) then req.brokerInfo else None)
  }

  /** Validation, then the duplicate-email check, then the insertion of one
      user.  The reply echoes the new user without password or broker
      details. */
  function Register(st: Store, req: RegisterRequest, hash: string -> string, now: int): (r: Handled)
    ensures !RegisterValid(req) ==> r == Reply(st, BAD_REQUEST, ValidationErrors)
    ensures RegisterValid(req) && FindUserByEmail(st, req.email.value).Some? ==>
              r == Reply(st, BAD_REQUEST, Message(DuplicateEmailMessage))
    ensures r.response.status == CREATED <==> RegisterValid(req) && FindUserByEmail(st, req.email.value).None?
    ensures r.response.status == CREATED ==>
              && |r.store.users| == |st.users| + 1
              && r.store.users[..|st.users|] == st.users
              && var u := r.store.users[|st.users|];
              && r.store == st.(users := st.users + [u], nextUserId := st.nextUserId + 1)
              && u.id == st.nextUserId && u.createdAt == now
              && u.profile == NewProfile(req, hash)
              && r.response.body == Session(RegisteredMessage, UserSummary(u.id, req.email, req.name, u.profile.userType, None))
  {
    if !RegisterValid(req) then Reply(st, BAD_REQUEST, ValidationErrors)
    else if FindUserByEmail(st, req.email.value).Some? then Reply(st, BAD_REQUEST, Message(DuplicateEmailMessage))
    else
      var op := CreateUser(st, UserPatch(None, None, NewProfile(req, hash)), now);
      var u := op.result;
      assert op.store.users[..|st.users|] == st.users;
      Handled(op.store, Response(CREATED, Session(RegisteredMessage,
                                                  UserSummary(u.id, u.profile.email, u.profile.name, u.profile.userType, None))))
  }

  /** What a successful login returns about the user. */
  function LoginSummary(u: User): UserSummary {
    UserSummary(u.id, u.profile.email, u.profile.name, u.profile.userType, u.profile.brokerInfo)
  }

  /** Validation, then the email lookup, then the password comparison.  An
      unknown email and a wrong password get the same reply; comparing against
      a user with no stored password throws.  Nothing is written. */
  function Login(st: Store, req: LoginRequest, matches: (string, string) -> bool): (r: Handled)
    ensures r.store == st
    ensures !LoginValid(req) ==> r.response == Response(BAD_REQUEST, ValidationErrors)
    ensures LoginValid(req) && FindUserByEmail(st, req.email.value).None? ==>
              r.response == Response(BAD_REQUEST, Message(BadCredentialsMessage))
    ensures LoginValid(req) && r.response.status == BAD_REQUEST ==>
              r.response.body == Message(BadCredentialsMessage)
    ensures r.response.status == OK <==>
              && LoginValid(req)
              && FindUserByEmail(st, req.email.value).Some?
              && FindUserByEmail(st, req.email.value).value.profile.password.Some?
              && matches(FindUserByEmail(st, req.email.value).value.profile.password.value, req.password.value)
    ensures r.response.status == OK ==>
              r.response.body == Session(LoggedInMessage, LoginSummary(FindUserByEmail(st, req.email.value).value))
  {
    if !LoginValid(req) then Reply(st, BAD_REQUEST, ValidationErrors)
    else match FindUserByEmail(st, req.email.value)
      case None => Reply(st, BAD_REQUEST, Message(BadCredentialsMessage))
      case Some(u) =>
        if u.profile.password.None? then Reply(st, SERVER_ERROR, Message(ServerErrorMessage))
        else if !matches(u.profile.password.value, req.password.value) then
          Reply(st, BAD_REQUEST, Message(BadCredentialsMessage))
        else Reply(st, OK, Session(LoggedInMessage, LoginSummary(u)))
  }

  /** The change a broker application makes to a profile: the broker role and
      the given details, not yet verified. */
  function Application(req: VerifyRequest): UserPatch {
    UserPatch(None, None, NoProfile.(userType := Some(BrokerRole),
                                     brokerInfo := Some(BrokerInfo(req.licenseNumber, req.companyName,
                                                                   req.address, Some(false)))))
  }

  /** Validation, then the user lookup, then the switch to the broker role
      with unverified details; the caller's other data is kept. */
  function VerifyBroker(st: Store, userId: nat, req: VerifyRequest): (r: Handled)
    ensures !VerifyValid(req) ==> r == Reply(st, BAD_REQUEST, ValidationErrors)
    ensures VerifyValid(req) && FindUserById(st, userId).None? ==>
              r == Reply(st, NOT_FOUND, Message(UserNotFoundMessage))
    ensures r.response.status != OK ==> r.store == st
    ensures r.response.status == OK <==> VerifyValid(req) && FindUserById(st, userId).Some?
    ensures r.response.status == OK ==>
              match FirstIndex(st.users, UserWithId(userId))
              case None => false
              case Some(i) =>
                var before := st.users[i];
                && r.response.body.BrokerApplication?
                && r.response.body.text == AppliedMessage
                && |r.store.users| == |st.users|
                && var u := r.store.users[i];
                && u.profile.userType == Some(BrokerRole)
                && u.profile.brokerInfo == Some(BrokerInfo(req.licenseNumber, req.companyName, req.address, Some(false)))
                && u.(profile := before.profile) == before
                && u.profile.(userType := before.profile.userType, brokerInfo := before.profile.brokerInfo) == before.profile
                && ReplacedAt(st.users, r.store.users, i, u)
                && r.store.(users := st.users) == st
                && r.response.body.user == UserSummary(u.id, None, None, u.profile.userType, u.profile.brokerInfo)
  {
    if !VerifyValid(req) then Reply(st, BAD_REQUEST, ValidationErrors)
    else match FirstIndex(st.users, UserWithId(userId))
      case None => Reply(st, NOT_FOUND, Message(UserNotFoundMessage))
      case Some(i) =>
        var op := UpdateUser(st, userId, Application(req));
        var u := op.result.value;
        Handled(op.store, Response(OK, BrokerApplication(AppliedMessage,
                                                         UserSummary(u.id, None, None, u.profile.userType, u.profile.brokerInfo))))
  }
}

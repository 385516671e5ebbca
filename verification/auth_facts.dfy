/** What the auth routes guarantee across calls: the store invariant, that
    a registered user can log in, that an email registers once, that failed
    logins cannot be told apart, and what a broker application leaves
    behind. */
module AuthRouteFacts {
  import opened Optional
  import opened Seqs
  import opened Users
  import opened MemoryDB
  import opened MemoryDBFacts
  import opened Http
  import opened AuthRoutes

  lemma RegisterKeepsValid(st: Store, req: RegisterRequest, hash: string -> string, now: int)
    requires Valid(st)
    ensures Valid(Register(st, req, hash, now).store)
  {
    if RegisterValid(req) && FindUserByEmail(st, req.email.value).None? {
      CreateUserKeepsValid(st, UserPatch(None, None, NewProfile(req, hash)), now);
    }
  }

  lemma VerifyKeepsValid(st: Store, userId: nat, req: VerifyRequest)
    requires Valid(st)
    ensures Valid(VerifyBroker(st, userId, req).store)
  {
    if VerifyValid(req) {
      UpdateUserKeepsValid(st, userId, Application(req));
    }
  }

  /** An unknown email and a known email with a wrong password are answered
      identically, so the reply does not reveal which emails are registered. */
  lemma LoginFailuresIndistinguishable(st: Store, unknown: LoginRequest, wrong: LoginRequest,
                                       matches: (string, string) -> bool)
    requires LoginValid(unknown) && FindUserByEmail(st, unknown.email.value).None?
    requires LoginValid(wrong) && FindUserByEmail(st, wrong.email.value).Some?
    requires FindUserByEmail(st, wrong.email.value).value.profile.password.Some?
    requires !matches(FindUserByEmail(st, wrong.email.value).value.profile.password.value, wrong.password.value)
    ensures Login(st, unknown, matches) == Login(st, wrong, matches)
    ensures Login(st, unknown, matches).response.status == BAD_REQUEST
  {
  }

  /** With a comparison that accepts what the hash produced, a user who has
      just registered can log in with the same email and password, and the
      login names the new account. */
  lemma RegisterThenLogin(st: Store, req: RegisterRequest, hash: string -> string,
                          matches: (string, string) -> bool, now: int)
    requires RegisterValid(req) && FindUserByEmail(st, req.email.value).None?
    requires forall p :: matches(hash(p), p)
    ensures var r := Register(st, req, hash, now);
            var l := Login(r.store, LoginRequest(req.email, true, req.password), matches);
            && r.response.status == CREATED
            && l.response.status == OK
            && l.response.body.user.id == st.nextUserId
            && l.response.body.user.userType == Some(RoleOf(req.userType))
  {
    var data := UserPatch(None, None, NewProfile(req, hash));
    CreateUserThenFindByEmail(st, data, now, req.email.value);
    assert matches(hash(req.password.value), req.password.value);
  }

  /** The second registration of the same email is refused and stores
      nothing. */
  lemma RegisterTwiceRejected(st: Store, req: RegisterRequest, again: RegisterRequest,
                              hash: string -> string, now1: int, now2: int)
    requires RegisterValid(req) && FindUserByEmail(st, req.email.value).None?
    requires RegisterValid(again) && again.email == req.email
    ensures var st1 := Register(st, req, hash, now1).store;
            Register(st1, again, hash, now2) == Reply(st1, BAD_REQUEST, Message(DuplicateEmailMessage))
  {
    CreateUserThenFindByEmail(st, UserPatch(None, None, NewProfile(req, hash)), now1, req.email.value);
  }

  /** Registration keeps the broker details the client sends, verification
      flag included: a client can register as an already verified broker. */
  lemma RegisterKeepsClientVerification(st: Store, req: RegisterRequest, hash: string -> string, now: int)
    requires RegisterValid(req) && FindUserByEmail(st, req.email.value).None?
    requires req.userType == Some(BrokerRole)
    requires req.brokerInfo.Some? && req.brokerInfo.value.isVerified == Some(true)
    ensures var r := Register(st, req, hash, now);
            && r.store.users[|st.users|].profile.brokerInfo.value.isVerified == Some(true)
            && IsBroker(r.store.users[|st.users|])
  {
  }

  /** Broker details sent with any other role are dropped. */
  lemma RegisterDropsDetailsOfMembers(st: Store, req: RegisterRequest, hash: string -> string, now: int)
    requires RegisterValid(req) && FindUserByEmail(st, req.email.value).None?
    requires req.userType != Some(BrokerRole)
    ensures var r := Register(st, req, hash, now);
            && r.store.users[|st.users|].profile.brokerInfo.None?
            && !IsBroker(r.store.users[|st.users|])
  {
  }

  /** A broker application always leaves the applicant unverified, even one
      who was verified before, and the user found by id afterwards carries
      it. */
  lemma ApplicationResetsVerification(st: Store, userId: nat, req: VerifyRequest)
    requires VerifyValid(req) && FindUserById(st, userId).Some?
    ensures var r := VerifyBroker(st, userId, req);
            && r.response.status == OK
            && FindUserById(r.store, userId).Some?
            && IsBroker(FindUserById(r.store, userId).value)
            && FindUserById(r.store, userId).value.profile.brokerInfo.value.isVerified == Some(false)
  {
    var r := VerifyBroker(st, userId, req);
    var i := FirstIndex(st.users, UserWithId(userId)).value;
    FirstIndexReplaced(st.users, r.store.users, i, r.store.users[i], UserWithId(userId));
  }
}

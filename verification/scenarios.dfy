/** How the two route families meet: who the listing routes accept as a
    broker after the auth routes have run. */
module Scenarios {
  import opened Optional
  import opened Seqs
  import opened Schema
  import opened Users
  import opened MemoryDB
  import opened Http
  import opened AuthRoutes
  import opened AuthRouteFacts
  import opened PropertyRoutes

  /** The create route checks the role and never the verification flag: right
      after an application, still awaiting approval, the applicant can list. */
  lemma ApplicantCanListBeforeApproval(st: Store, userId: nat, req: VerifyRequest, body: ListingPatch, now: int)
    requires VerifyValid(req) && FindUserById(st, userId).Some?
    requires BodyValid(body) && body.fields.status.None?
    ensures var st1 := VerifyBroker(st, userId, req).store;
            && FindUserById(st1, userId).value.profile.brokerInfo.value.isVerified == Some(false)
            && CreateListing(st1, userId, body, now).response.status == CREATED
  {
    ApplicationResetsVerification(st, userId, req);
  }

  /** Nor does it need an application at all: registering with the broker
      role is enough to list. */
  lemma RegisteredBrokerCanList(st: Store, req: RegisterRequest, hash: string -> string,
                                body: ListingPatch, now1: int, now2: int)
    requires Valid(st)
    requires RegisterValid(req) && FindUserByEmail(st, req.email.value).None?
    requires req.userType == Some(BrokerRole)
    requires BodyValid(body) && body.fields.status.None?
    ensures var st1 := Register(st, req, hash, now1).store;
            CreateListing(st1, st.nextUserId, body, now2).response.status == CREATED
  {
    var st1 := Register(st, req, hash, now1).store;
    RegisterKeepsValid(st, req, hash, now1);
    var i := |st.users|;
    assert st1.users[i].id == st.nextUserId;
    var k := FirstIndex(st1.users, UserWithId(st.nextUserId));
    assert UserWithId(st.nextUserId)(st1.users[i]);
    assert k.Some?;
  }

  /** A registered member is refused a listing, however valid the body. */
  lemma RegisteredMemberCannotList(st: Store, req: RegisterRequest, hash: string -> string,
                                   body: ListingPatch, now1: int, now2: int)
    requires Valid(st)
    requires RegisterValid(req) && FindUserByEmail(st, req.email.value).None?
    requires !TruthyText(req.userType)
    requires BodyValid(body)
    ensures var st1 := Register(st, req, hash, now1).store;
            CreateListing(st1, st.nextUserId, body, now2) == Reply(st1, FORBIDDEN, Message(BrokersOnlyMessage))
  {
    var st1 := Register(st, req, hash, now1).store;
    RegisterKeepsValid(st, req, hash, now1);
    var i := |st.users|;
    assert st1.users[i].id == st.nextUserId;
    var k := FirstIndex(st1.users, UserWithId(st.nextUserId));
    assert UserWithId(st.nextUserId)(st1.users[i]);
    assert k.Some?;
  }
}

/** The user record the auth routes and the in-memory store keep: an
    identity, a creation time and a profile whose fields a request body may
    or may not carry. */
module Users {
  import opened Optional

  /** The `userType` of an ordinary member. */
  const MemberRole: string := "일반사용자"
  /** The `userType` of a broker. */
  const BrokerRole: string := "중개사"

  datatype BrokerInfo = BrokerInfo(licenseNumber: Option<string>, companyName: Option<string>,
                                   address: Option<string>, isVerified: Option<bool>)

  /** `password` holds the stored hash. */
  datatype Profile = Profile(email: Option<string>, password: Option<string>, name: Option<string>,
                             phone: Option<string>, userType: Option<string>, brokerInfo: Option<BrokerInfo>)

  const NoProfile: Profile := Profile(None, None, None, None, None, None)

  /** `{ ...a, ...b }` on the profile fields. */
  function JoinProfile(a: Profile, b: Profile): Profile {
    Profile(b.email.Or(a.email), b.password.Or(a.password), b.name.Or(a.name),
            b.phone.Or(a.phone), b.userType.Or(a.userType), b.brokerInfo.Or(a.brokerInfo))
  }

  datatype User = User(id: nat, createdAt: int, profile: Profile)

  /** A user object or update object; `_id` and `createdAt` may be present. */
  datatype UserPatch = UserPatch(id: Option<nat>, createdAt: Option<int>, profile: Profile)

  /** `{ ...u, ...p }`. */
  function MergeUser(u: User, p: UserPatch): User {
    User(p.id.GetOr(u.id), p.createdAt.GetOr(u.createdAt), JoinProfile(u.profile, p.profile))
  }

  /** A patch with no fields leaves a user as is, and one that sets only the
      profile keeps the identity and creation time. */
  lemma MergeUserLaws(u: User, p: Profile)
    ensures MergeUser(u, UserPatch(None, None, NoProfile)) == u
    ensures MergeUser(u, UserPatch(None, None, p)).id == u.id
    ensures MergeUser(u, UserPatch(None, None, p)).createdAt == u.createdAt
    ensures MergeUser(MergeUser(u, UserPatch(None, None, p)), UserPatch(None, None, p))
         == MergeUser(u, UserPatch(None, None, p))
  {
  }

  predicate IsBroker(u: User) {
    u.profile.userType == Some(BrokerRole)
  }
}

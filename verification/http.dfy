/** What a route handler sends back: a status code and a JSON body, paired
    with the store it leaves behind. */
module Http {
  import opened Optional
  import opened Schema
  import opened Users
  import opened MemoryDB

  const OK: nat := 200
  const CREATED: nat := 201
  const BAD_REQUEST: nat := 400
  const FORBIDDEN: nat := 403
  const NOT_FOUND: nat := 404
  const SERVER_ERROR: nat := 500

  /** The message of every caught exception. */
  const ServerErrorMessage: string := "서버 오류가 발생했습니다."

  /** The user object a reply carries: a chosen subset of the profile, never
      the stored password. */
  datatype UserSummary = UserSummary(id: nat, email: Option<string>, name: Option<string>,
                                     userType: Option<string>, brokerInfo: Option<BrokerInfo>)

  datatype Body =
    | Message(text: string)
      /** `{ errors: [...] }` from the request validators. */
    | ValidationErrors
    | OneListing(listing: Listing)
    | ListingSaved(text: string, listing: Listing)
    | ListingArray(listings: seq<Listing>)
      /** `totalPages` is `null` in the JSON when the division by the page
          size is not a finite number. */
    | ListingPage(properties: seq<Listing>, totalPages: Option<nat>, currentPage: nat, total: nat)
      /** Register and login replies; the signed token is not modelled. */
    | Session(text: string, user: UserSummary)
    | BrokerApplication(text: string, user: UserSummary)

  datatype Response = Response(status: nat, body: Body)

  datatype Handled = Handled(store: Store, response: Response)

  /** A reply that leaves the store as it was. */
  function Reply(st: Store, status: nat, body: Body): Handled {
    Handled(st, Response(status, body))
  }
}

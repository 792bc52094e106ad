/** The responses the handlers send: a status, a JSON body and the cookie
    operations made on `res`. */
module Http {
  import opened Values
  import opened UserModel

  /** The message every handler's `catch` answers a 500 with. */
  const InternalError := "Internal server error"

  /** The `secure` attribute of a set cookie: only in production, or always. */
  datatype Secure = InProduction | Always

  /** `res.cookie(name, value, { httpOnly, secure, sameSite })` and
      `res.clearCookie(name)`. */
  datatype CookieOp = SetCookie(name: string, value: string, secure: Secure) | ClearCookie(name: string)

  /** The account fields a response shows. It has no password field. */
  datatype UserView = UserView(id: Id, name: string, email: string, profilePic: Option<string>)

  /** Why a request ended in the framework's default error handler. */
  datatype Fault = Db(error: DbError) | NoRequestUser

  datatype Body =
    | Text(text: string)                                     // res.json('...')
    | Message(message: string)                               // { message }
    | SignedIn(note: Option<string>, user: UserView, token: string)  // { message?, user, token }
    | UpdatedUser(message: string, user: UserView)
    | Record(message: string, account: Account)              // the whole stored document
    | Listings(listings: seq<Listing>)
    | ServerError(message: string, error: Option<DbError>)   // 500 from a handler's catch
    | Unhandled(fault: Fault)                                // 500 from the default handler

  datatype Response = Response(status: nat, body: Body, cookies: seq<CookieOp>)

  /** A response that touches no cookie. */
  function Reply(status: nat, body: Body): Response
  {
    Response(status, body, [])
  }

  /** `{ id, name, email, profilePic }` of a stored account. */
  function View(a: Account): UserView
  {
    UserView(a.id, a.name, a.email, Some(a.profilePic))
  }
}

/** The authentication handlers: sign-up, sign-in, Google sign-in or
    sign-up, and logout. Each works on the account collection and answers
    with one response; the hasher and signer are given, and so are the two
    random strings the Google path draws. */
module AuthController {
  import opened Values
  import opened Strings
  import opened UserModel
  import opened Store
  import opened Crypto
  import opened Http

  const AccessTokenCookie := "access_token"
  const GoogleTokenCookie := "token"

  const AllFieldsRequired := "All fields are required"
  const UserExists := "User already exists"
  const UserCreated := "User created successfully"
  const InvalidCredentials := "Invalid email or password"
  const FillAllFields := "Please fill all the fields!"
  const GoogleSignedIn := "User signed in successfully!"
  const GoogleSignedUp := "User signed up successfully!"
  const LoggedOut := "Logged out successfully"

  /** `name.split(' ').join('').toLowerCase() + suffix`: the display name
      without its spaces, in lower case, then the random suffix. */
  function GoogleUserName(name: string, suffix: string): (r: string)
    ensures r == LowerAscii(Without(name, ' ')) + suffix
    ensures |r| == |Without(name, ' ')| + |suffix|
    ensures forall i :: 0 <= i < |r| - |suffix| ==> r[i] != ' ' && !('A' <= r[i] <= 'Z')
  {
    JoinSplitEmpty(name, ' ');
    var base := Without(name, ' ');
    assert forall i :: 0 <= i < |base| ==> base[i] != ' ';
    LowerAscii(Join(Split(name, ' '), "")) + suffix
  }

  /** `signup`: every field must be given; the email must be new; the
      account stores the hash of the password and gets the default
      picture. The response carries `{ id, name, email }` and the token,
      which is also set as the `access_token` cookie. */
  method Signup(db: Database, lib: Primitives, name: Option<string>, email: Option<string>, password: Option<string>)
    returns (res: Response)
    requires db.Valid()
    modifies db
    ensures db.Valid() && db.listings == old(db.listings)
    ensures !(Given(name) && Given(email) && Given(password)) ==>
              res == Reply(400, Message(AllFieldsRequired)) && db.accounts == old(db.accounts)
    ensures Given(name) && Given(email) && Given(password) && IndexOf(old(db.accounts), ByEmail(email)).Some? ==>
              res == Reply(400, Message(UserExists)) && db.accounts == old(db.accounts)
    ensures Given(name) && Given(email) && Given(password) && IndexOf(old(db.accounts), ByEmail(email)).None? ==>
              var a := NewAccount(old(db.nextId), name.value, email.value, lib.hash(password.value), None);
              match SaveError(old(db.accounts), a)
              case Some(e) =>
                res == Reply(500, ServerError(InternalError, Some(e))) && db.accounts == old(db.accounts)
              case None =>
                && db.accounts == old(db.accounts) + [a]
                && res == Response(201, SignedIn(Some(UserCreated), UserView(a.id, a.name, a.email, None), Issue(lib, a)),
                                   [SetCookie(AccessTokenCookie, Issue(lib, a), InProduction)])
  {
    if !(Given(name) && Given(email) && Given(password)) {
      return Reply(400, Message(AllFieldsRequired));
    }
    var existingUser := IndexOf(db.accounts, ByEmail(email));
    if existingUser.Some? {
      return Reply(400, Message(UserExists));
    }
    var hashedPassword := lib.hash(password.value);
    var saved := db.Insert(name.value, email.value, hashedPassword, None);
    if saved.Err? {
      return Reply(500, ServerError(InternalError, Some(saved.error)));
    }
    var savedUser := saved.value;
    var token := Issue(lib, savedUser);
    res := Response(201, SignedIn(Some(UserCreated), UserView(savedUser.id, savedUser.name, savedUser.email, None), token),
                    [SetCookie(AccessTokenCookie, token, InProduction)]);
  }

  /** `signin`: an unknown email and a wrong password get the same 400
      answer and no token. An absent password makes the comparison throw
      (500). Success answers with the stored projection and a token, also
      set as the `access_token` cookie. The store is only read. */
  method Signin(db: Database, lib: Primitives, email: Option<string>, password: Option<string>)
    returns (res: Response)
    ensures match IndexOf(db.accounts, ByEmail(email))
            case None => res == Reply(400, Message(InvalidCredentials))
            case Some(i) =>
              if password.None? then res == Reply(500, ServerError(InternalError, None))
              else if !lib.compare(password.value, db.accounts[i].password) then res == Reply(400, Message(InvalidCredentials))
              else res == Response(200, SignedIn(None, View(db.accounts[i]), Issue(lib, db.accounts[i])),
                                   [SetCookie(AccessTokenCookie, Issue(lib, db.accounts[i]), InProduction)])
    ensures res.status == 400 ==> res == Reply(400, Message(InvalidCredentials))
    ensures res.status == 200 ==> exists i :: 0 <= i < |db.accounts| && res.body == SignedIn(None, View(db.accounts[i]), Issue(lib, db.accounts[i]))
  {
    var user := IndexOf(db.accounts, ByEmail(email));
    if user.None? {
      return Reply(400, Message(InvalidCredentials));
    }
    var u := db.accounts[user.value];
    if password.None? {
      return Reply(500, ServerError(InternalError, None));
    }
    var isPasswordValid := lib.compare(password.value, u.password);
    if !isPasswordValid {
      return Reply(400, Message(InvalidCredentials));
    }
    var token := Issue(lib, u);
    // The source falls back to `''` for a missing picture; a stored
    // account always has one (the schema default), so the view is direct.
    res := Response(200, SignedIn(None, View(u), token),
                    [SetCookie(AccessTokenCookie, token, InProduction)]);
  }

  /** `googleSignIn`: every field must be given. A known email signs in
      the existing account, which is left as it is; a new email creates an
      account with a synthesised name, the given picture and the hash of a
      generated password, and sets the token as the `token` cookie, always
      secure. A failed save goes to the default error handler. */
  method GoogleSignIn(db: Database, lib: Primitives, name: Option<string>, email: Option<string>, profilePic: Option<string>,
                      generatedPassword: string, suffix: string)
    returns (res: Response)
    requires db.Valid()
    modifies db
    ensures db.Valid() && db.listings == old(db.listings)
    ensures !(Given(name) && Given(email) && Given(profilePic)) ==>
              res == Reply(400, Message(FillAllFields)) && db.accounts == old(db.accounts)
    ensures Given(name) && Given(email) && Given(profilePic) ==>
              match IndexOf(old(db.accounts), ByEmail(email))
              case Some(i) =>
                var a := old(db.accounts)[i];
                && db.accounts == old(db.accounts)
                && res == Response(200, SignedIn(Some(GoogleSignedIn), View(a), Issue(lib, a)),
                                   [SetCookie(AccessTokenCookie, Issue(lib, a), InProduction)])
              case None =>
                var a := NewAccount(old(db.nextId), GoogleUserName(name.value, suffix), email.value, lib.hash(generatedPassword), profilePic);
                match SaveError(old(db.accounts), a)
                case Some(e) =>
                  res == Reply(500, Unhandled(Db(e))) && db.accounts == old(db.accounts)
                case None =>
                  && db.accounts == old(db.accounts) + [a]
                  && res == Response(201, SignedIn(Some(GoogleSignedUp), View(a), Issue(lib, a)),
                                     [SetCookie(GoogleTokenCookie, Issue(lib, a), Always)])
  {
    if !(Given(name) && Given(email) && Given(profilePic)) {
      return Reply(400, Message(FillAllFields));
    }
    var existingUser := IndexOf(db.accounts, ByEmail(email));
    if existingUser.Some? {
      var a := db.accounts[existingUser.value];
      var token := Issue(lib, a);
      return Response(200, SignedIn(Some(GoogleSignedIn), View(a), token),
                      [SetCookie(AccessTokenCookie, token, InProduction)]);
    }
    var hashedPassword := lib.hash(generatedPassword);
    var saved := db.Insert(GoogleUserName(name.value, suffix), email.value, hashedPassword, profilePic);
    if saved.Err? {
      return Reply(500, Unhandled(Db(saved.error)));
    }
    var newUser := saved.value;
    var token := Issue(lib, newUser);
    res := Response(201, SignedIn(Some(GoogleSignedUp), View(newUser), token),
                    [SetCookie(GoogleTokenCookie, token, Always)]);
  }

  /** `logout`: always 200, and the only cookie it clears is
      `access_token`; the `token` cookie of the Google sign-up path stays. */
  function Logout(): (res: Response)
    ensures res.status == 200
    ensures res.cookies == [ClearCookie(AccessTokenCookie)]
    ensures forall op :: op in res.cookies ==> op.name != GoogleTokenCookie
  {
    Response(200, Message(LoggedOut), [ClearCookie(AccessTokenCookie)])
  }

  /** With every field given, a new email and a non-empty password hash,
      the only way the sign-up save can fail is a name that is already
      taken. */
  lemma SignupFailsOnlyOnTakenName(accounts: seq<Account>, id: Id, name: string, email: string, hashed: string)
    requires hashed != "" && name != "" && email != ""
    requires IndexOf(accounts, ByEmail(Some(email))).None?
    ensures var e := SaveError(accounts, NewAccount(id, name, email, hashed, None));
            e.None? || e == Some(DuplicateKey("name"))
    ensures SaveError(accounts, NewAccount(id, name, email, hashed, None)).None?
            <==> forall k :: 0 <= k < |accounts| ==> accounts[k].name != name
  {
    var a := NewAccount(id, name, email, hashed, None);
    NoEmailMatch(accounts, email);
    FirstClashOnlyName(accounts, a);
    assert SaveError(accounts, a) == FirstClash(accounts, a);
  }

  lemma NoEmailMatch(accounts: seq<Account>, email: string)
    requires IndexOf(accounts, ByEmail(Some(email))).None?
    ensures forall k :: 0 <= k < |accounts| ==> accounts[k].email != email
  {
    forall k | 0 <= k < |accounts| ensures accounts[k].email != email {
      assert !Matches(accounts[k], ByEmail(Some(email)));
    }
  }

  lemma {:induction false} FirstClashOnlyName(others: seq<Account>, a: Account)
    requires forall k :: 0 <= k < |others| ==> others[k].email != a.email
    ensures FirstClash(others, a).None? || FirstClash(others, a) == Some(DuplicateKey("name"))
    decreases |others|
  {
    if |others| > 0 && others[0].name != a.name {
      assert forall k :: 0 <= k < |others[1..]| ==> others[1..][k] == others[k + 1];
      FirstClashOnlyName(others[1..], a);
    }
  }

  /** A successful sign-up followed by a sign-in with the same email and
      password succeeds, and signs in exactly the account just created. */
  method SignupThenSignin(db: Database, lib: Primitives, name: string, email: string, password: string)
    returns (up: Response, inn: Response)
    requires db.Valid() && Sound(lib)
    modifies db
    ensures db.Valid()
    ensures up.status == 201 ==>
              && inn.status == 200
              && inn.body.SignedIn? && up.body.SignedIn?
              && inn.body.user.id == up.body.user.id
              && inn.body.user.email == email
              && lib.verify(inn.body.token) == Some(Claims(up.body.user.id, email))
  {
    var before := db.accounts;
    up := Signup(db, lib, Some(name), Some(email), Some(password));
    inn := Signin(db, lib, Some(email), Some(password));
    if up.status == 201 {
      var k := |db.accounts| - 1;
      assert db.accounts == before + [db.accounts[k]];
      assert Matches(db.accounts[k], ByEmail(Some(email)));
      IndexOfIdentifies(db.accounts, k, ByEmail(Some(email)));
    }
  }

  /** Once a sign-up has succeeded, a second sign-up with the same email is
      refused as an existing user, whatever its other fields, and adds
      nothing. */
  method SignupTwice(db: Database, lib: Primitives, name: string, email: string, password: string,
                     name2: string, password2: string)
    returns (first: Response, second: Response)
    requires db.Valid()
    modifies db
    ensures db.Valid()
    ensures first.status == 201 && name2 != "" && password2 != "" ==>
              second == Reply(400, Message(UserExists)) && |db.accounts| == |old(db.accounts)| + 1
  {
    first := Signup(db, lib, Some(name), Some(email), Some(password));
    ghost var afterFirst := db.accounts;
    second := Signup(db, lib, Some(name2), Some(email), Some(password2));
    if first.status == 201 && name2 != "" && password2 != "" {
      var k := |afterFirst| - 1;
      assert Matches(afterFirst[k], ByEmail(Some(email)));
    }
  }
}

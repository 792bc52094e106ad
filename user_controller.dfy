/** The account handlers: change the picture, update the account, delete
    it, and list its listings. All but the first run behind the guard, so
    they see the caller's token payload. */
module UserController {
  import opened Values
  import opened UserModel
  import opened Store
  import opened Crypto
  import opened Http

  const UserNotFound := "User not found"
  const PictureUpdated := "Profile picture updated successfully"
  const UserUpdated := "User updated successfully!"
  const OwnAccountOnly := "You can only delete your own account"
  const UserDeleted := "User deleted successfully!"
  const OwnListingsOnly := "You can only view your own listing"

  /** `updateProfilePic`. Its route has no guard, so `caller` (the request's
      `user`) is absent and reading its id throws before any lookup. With a
      caller, only the picture of that account changes, and the answer
      carries the whole stored record. */
  method UpdateProfilePic(db: Database, caller: Option<Claims>, profilePic: Option<string>) returns (res: Response)
    requires db.Valid()
    modifies db
    ensures db.Valid() && db.listings == old(db.listings)
    ensures caller.None? ==> res == Reply(500, Unhandled(NoRequestUser)) && db.accounts == old(db.accounts)
    ensures caller.Some? ==>
              match IndexOf(old(db.accounts), ById(caller.value.id))
              case None => res == Reply(404, Message(UserNotFound)) && db.accounts == old(db.accounts)
              case Some(i) =>
                var a := old(db.accounts)[i];
                var a' := if profilePic.Some? then a.(profilePic := profilePic.value) else a;
                && db.accounts == old(db.accounts)[i := a']
                && res == Reply(200, Record(PictureUpdated, a'))
  {
    if caller.None? {
      return Reply(500, Unhandled(NoRequestUser));
    }
    var userId := caller.value.id;
    var user := db.FindByIdAndUpdatePic(userId, profilePic);
    if user.None? {
      return Reply(404, Message(UserNotFound));
    }
    res := Reply(200, Record(PictureUpdated, user.value));
  }

  /** The record after `updateUser`'s assignments: a truthy name, email or
      picture replaces the stored one, and a truthy password is stored as
      its hash. Omitted and empty fields keep their stored values. */
  function Overwrite(a: Account, lib: Primitives, name: Option<string>, email: Option<string>,
                     password: Option<string>, profilePic: Option<string>): (r: Account)
    ensures r.id == a.id
    ensures r.name == (if Given(name) then name.value else a.name)
    ensures r.email == (if Given(email) then email.value else a.email)
    ensures r.password == (if Given(password) then lib.hash(password.value) else a.password)
    ensures r.profilePic == (if Given(profilePic) then profilePic.value else a.profilePic)
    ensures !Given(name) && !Given(email) && !Given(password) && !Given(profilePic) ==> r == a
  {
    a.(name := if Given(name) then name.value else a.name,
       email := if Given(email) then email.value else a.email,
       password := if Given(password) then lib.hash(password.value) else a.password,
       profilePic := if Given(profilePic) then profilePic.value else a.profilePic)
  }

  /** Starting from a complete record, and with a hasher that yields
      non-empty hashes, the assignments keep every required field filled,
      so the save can only fail on a unique index. */
  lemma UpdateFailsOnlyOnDuplicate(others: seq<Account>, a: Account, lib: Primitives, name: Option<string>, email: Option<string>,
                                   password: Option<string>, profilePic: Option<string>)
    requires Complete(a)
    requires Given(password) ==> lib.hash(password.value) != ""
    ensures var e := SaveError(others, Overwrite(a, lib, name, email, password, profilePic));
            e.None? || e.value.DuplicateKey?
  {
    var r := Overwrite(a, lib, name, email, password, profilePic);
    assert r.name != "" && r.email != "" && r.password != "";
    FirstClashIsDuplicate(others, r);
  }

  lemma {:induction false} FirstClashIsDuplicate(others: seq<Account>, a: Account)
    ensures FirstClash(others, a).None? || FirstClash(others, a).value.DuplicateKey?
    decreases |others|
  {
    if |others| > 0 && others[0].name != a.name && others[0].email != a.email {
      FirstClashIsDuplicate(others[1..], a);
    }
  }

  /** `updateUser`. The caller's identity is not consulted, so any signed-in
      user may update any account. An unknown id is 404; a clash on a
      unique field is 500 with the store unchanged; otherwise the fields
      are assigned and saved, and the answer shows the saved record
      without its password. */
  method UpdateUser(db: Database, lib: Primitives, caller: Claims, id: Id, name: Option<string>, email: Option<string>,
                    password: Option<string>, profilePic: Option<string>)
    returns (res: Response)
    requires db.Valid()
    modifies db
    ensures db.Valid() && db.listings == old(db.listings)
    ensures match IndexOf(old(db.accounts), ById(id))
            case None => res == Reply(404, Message(UserNotFound)) && db.accounts == old(db.accounts)
            case Some(i) =>
              var a' := Overwrite(old(db.accounts)[i], lib, name, email, password, profilePic);
              if SaveError(Others(old(db.accounts), i), a').Some? then
                res == Reply(500, ServerError(InternalError, None)) && db.accounts == old(db.accounts)
              else
                res == Reply(200, UpdatedUser(UserUpdated, View(a'))) && db.accounts == old(db.accounts)[i := a']
  {
    var found := IndexOf(db.accounts, ById(id));
    if found.None? {
      return Reply(404, Message(UserNotFound));
    }
    var user := db.accounts[found.value];
    if Given(name) { user := user.(name := name.value); }
    if Given(email) { user := user.(email := email.value); }
    if Given(password) {
      var hashedPassword := lib.hash(password.value);
      user := user.(password := hashedPassword);
    }
    if Given(profilePic) { user := user.(profilePic := profilePic.value); }
    var e := db.Save(found.value, user);
    if e.Some? {
      return Reply(500, ServerError(InternalError, None));
    }
    res := Reply(200, UpdatedUser(UserUpdated, View(user)));
  }

  /** `deleteUser`: a caller deleting another account gets 403 before any
      lookup; the owner's account is removed, or 404 when it is gone. */
  method DeleteUser(db: Database, caller: Claims, id: Id) returns (res: Response)
    requires db.Valid()
    modifies db
    ensures db.Valid() && db.listings == old(db.listings)
    ensures caller.id != id ==> res == Reply(403, Message(OwnAccountOnly)) && db.accounts == old(db.accounts)
    ensures caller.id == id ==>
              match IndexOf(old(db.accounts), ById(id))
              case None => res == Reply(404, Message(UserNotFound)) && db.accounts == old(db.accounts)
              case Some(i) => res == Reply(200, Message(UserDeleted)) && db.accounts == Others(old(db.accounts), i)
  {
    if caller.id != id {
      return Reply(403, Message(OwnAccountOnly));
    }
    var user := db.FindByIdAndDelete(id);
    if user.None? {
      return Reply(404, Message(UserNotFound));
    }
    res := Reply(200, Message(UserDeleted));
  }

  /** After a delete the id names no account, and every other account is
      still there. */
  lemma DeleteRemovesExactlyOne(accounts: seq<Account>, i: nat)
    requires Stored(accounts) && i < |accounts|
    ensures IndexOf(Others(accounts, i), ById(accounts[i].id)).None?
    ensures forall k :: 0 <= k < |accounts| && k != i ==> accounts[k] in Others(accounts, i)
    ensures |Others(accounts, i)| == |accounts| - 1
  {
    var r := Others(accounts, i);
    forall k | 0 <= k < |r| ensures !Matches(r[k], ById(accounts[i].id)) {
      var k' := if k < i then k else k + 1;
      assert r[k] == accounts[k'];
    }
    forall k | 0 <= k < |accounts| && k != i ensures accounts[k] in r {
      if k < i { assert r[k] == accounts[k]; } else { assert r[k - 1] == accounts[k]; }
    }
  }

  /** `getUserListings`: a caller asking for another user's listings gets
      403; the owner gets the stored listings that name them as owner, in
      stored order (`Store.OwnedByAppend`), which may be none. Nothing is
      changed. */
  method GetUserListings(db: Database, caller: Claims, id: Id) returns (res: Response)
    ensures caller.id != id ==> res == Reply(403, Message(OwnListingsOnly))
    ensures caller.id == id ==> res == Reply(200, Listings(OwnedBy(db.listings, id)))
    ensures caller.id == id ==> forall l :: l in res.body.listings <==> l in db.listings && l.userRef == id
  {
    if caller.id != id {
      return Reply(403, Message(OwnListingsOnly));
    }
    var listings := OwnedBy(db.listings, id);
    res := Reply(200, Listings(listings));
  }
}

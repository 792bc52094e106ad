/** The account schema: the record shape, the placeholder picture, and the
    checks a save must pass (`required` on name, email and password,
    `unique` on name and email). `Stored` is the invariant these checks keep
    on the whole collection. */
module UserModel {
  import opened Values

  const DefaultProfilePic := "https://lh3.googleusercontent.com/a/ACg8ocL6yjs9yPH0lVXs3cSYfot37bnYG5ciSRGRJS-3farM6c5s5key=s96-c"

  type Id = nat

  /** A stored account; `password` holds the hash, never the plain text. */
  datatype Account = Account(id: Id, name: string, email: string, password: string, profilePic: string)

  /** The listing model is not part of this model: a listing is reduced to
      its own id, its owner and its name. */
  datatype Listing = Listing(id: nat, userRef: Id, name: string)

  /** Why a save is refused: a required string is missing or empty, or a
      unique index already holds the value. */
  datatype DbError = ValidationError(path: string) | DuplicateKey(path: string)

  /** A new document; the picture takes the schema default when it is not
      supplied. */
  function NewAccount(id: Id, name: string, email: string, password: string, profilePic: Option<string>): (a: Account)
    ensures a.id == id && a.name == name && a.email == email && a.password == password
    ensures profilePic.None? ==> a.profilePic == DefaultProfilePic
    ensures profilePic.Some? ==> a.profilePic == profilePic.value
  {
    Account(id, name, email, password, if profilePic.Some? then profilePic.value else DefaultProfilePic)
  }

  ghost predicate Complete(a: Account)
  {
    a.name != "" && a.email != "" && a.password != ""
  }

  /** The collection invariant of the schema: every account has its
      required fields, and ids, names and emails are unique. */
  ghost predicate Stored(accounts: seq<Account>)
  {
    && (forall i :: 0 <= i < |accounts| ==> Complete(accounts[i]))
    && (forall i, j :: 0 <= i < j < |accounts| ==>
          accounts[i].id != accounts[j].id
          && accounts[i].name != accounts[j].name
          && accounts[i].email != accounts[j].email)
  }

  function FirstClash(others: seq<Account>, a: Account): (e: Option<DbError>)
    ensures e.None? <==> forall k :: 0 <= k < |others| ==> others[k].name != a.name && others[k].email != a.email
  {
    if |others| == 0 then None
    else if others[0].name == a.name then Some(DuplicateKey("name"))
    else if others[0].email == a.email then Some(DuplicateKey("email"))
    else
      var rest := FirstClash(others[1..], a);
      assert forall k :: 1 <= k < |others| ==> others[k] == others[1..][k - 1];
      rest
  }

  /** What saving `a` beside `others` fails with: schema validation runs
      first, in the order of the schema, then the unique indexes. */
  function SaveError(others: seq<Account>, a: Account): (e: Option<DbError>)
    ensures e.None? <==> Complete(a) && forall k :: 0 <= k < |others| ==> others[k].name != a.name && others[k].email != a.email
  {
    if a.name == "" then Some(ValidationError("name"))
    else if a.email == "" then Some(ValidationError("email"))
    else if a.password == "" then Some(ValidationError("password"))
    else FirstClash(others, a)
  }

  /** Appending an account that saves cleanly and has a fresh id keeps the
      invariant. */
  lemma StoredAppend(accounts: seq<Account>, a: Account)
    requires Stored(accounts)
    requires SaveError(accounts, a).None?
    requires forall k :: 0 <= k < |accounts| ==> accounts[k].id != a.id
    ensures Stored(accounts + [a])
  {
    var r := accounts + [a];
    forall i, j | 0 <= i < j < |r|
      ensures r[i].id != r[j].id && r[i].name != r[j].name && r[i].email != r[j].email
    {
      if j < |accounts| {
        assert r[i] == accounts[i] && r[j] == accounts[j];
      } else {
        assert r[i] == accounts[i] && r[j] == a;
      }
    }
  }

  /** The accounts other than the one at `i`. */
  function Others(accounts: seq<Account>, i: nat): (r: seq<Account>)
    requires i < |accounts|
    ensures |r| == |accounts| - 1
    ensures forall k :: 0 <= k < i ==> r[k] == accounts[k]
    ensures forall k :: i < k < |accounts| ==> r[k - 1] == accounts[k]
  {
    accounts[..i] + accounts[i + 1..]
  }

  /** Removing an account keeps the invariant. */
  lemma StoredRemove(accounts: seq<Account>, i: nat)
    requires Stored(accounts) && i < |accounts|
    ensures Stored(Others(accounts, i))
  {
    var r := Others(accounts, i);
    forall a, b | 0 <= a < b < |r|
      ensures r[a].id != r[b].id && r[a].name != r[b].name && r[a].email != r[b].email
    {
      var a', b' := if a < i then a else a + 1, if b < i then b else b + 1;
      assert r[a] == accounts[a'] && r[b] == accounts[b'];
    }
  }

  /** Replacing an account by a version with the same id that saves
      cleanly beside the others keeps the invariant. */
  lemma StoredReplace(accounts: seq<Account>, i: nat, a: Account)
    requires Stored(accounts) && i < |accounts|
    requires a.id == accounts[i].id
    requires SaveError(Others(accounts, i), a).None?
    ensures Stored(accounts[i := a])
  {
    var others := Others(accounts, i);
    var r := accounts[i := a];
    forall x, y | 0 <= x < y < |r|
      ensures r[x].id != r[y].id && r[x].name != r[y].name && r[x].email != r[y].email
    {
      if x == i {
        assert r[y] == accounts[y] == others[y - 1];
      } else if y == i {
        assert r[x] == accounts[x] == others[x];
      }
    }
  }
}

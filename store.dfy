/** The account collection as the controllers use it: lookups by email and
    by id in natural (insertion) order, and the four writes they perform.
    Every write keeps the schema invariant `Stored`. */
module Store {
  import opened Values
  import opened UserModel

  /** A query filter. `{ email }` with `email` absent matches every
      account, because properties that are `undefined` are dropped from a
      query. */
  datatype Filter = ByEmail(email: Option<string>) | ById(id: Id)

  predicate Matches(a: Account, f: Filter)
  {
    match f
    case ByEmail(e) => e.None? || a.email == e.value
    case ById(i) => a.id == i
  }

  /** `findOne(filter)`: the position of the first account that matches. */
  function IndexOf(accounts: seq<Account>, f: Filter): (r: Option<nat>)
    ensures r.Some? ==> r.value < |accounts| && Matches(accounts[r.value], f)
    ensures r.Some? ==> forall k :: 0 <= k < r.value ==> !Matches(accounts[k], f)
    ensures r.None? <==> forall k :: 0 <= k < |accounts| ==> !Matches(accounts[k], f)
  {
    if |accounts| == 0 then None
    else if Matches(accounts[0], f) then Some(0)
    else
      assert forall k :: 1 <= k < |accounts| ==> accounts[k] == accounts[1..][k - 1];
      match IndexOf(accounts[1..], f)
      case None => None
      case Some(k) => Some(k + 1)
  }

  /** Under the schema invariant an email or an id names at most one
      account, so the lookup finds exactly that one. */
  lemma IndexOfIdentifies(accounts: seq<Account>, k: nat, f: Filter)
    requires Stored(accounts) && k < |accounts|
    requires f.ById? || (f.ByEmail? && f.email.Some?)
    requires Matches(accounts[k], f)
    ensures IndexOf(accounts, f) == Some(k)
  {
    var r := IndexOf(accounts, f);
    assert r.Some?;
    assert Matches(accounts[r.value], f);
  }

  /** `Listing.find({ userRef: id })`: the listings of one owner, in order. */
  function OwnedBy(listings: seq<Listing>, id: Id): (r: seq<Listing>)
    ensures |r| <= |listings|
    ensures forall k :: 0 <= k < |r| ==> r[k].userRef == id
    ensures forall l :: l in r <==> l in listings && l.userRef == id
  {
    if |listings| == 0 then []
    else
      var rest := OwnedBy(listings[1..], id);
      assert forall l :: l in listings <==> l == listings[0] || l in listings[1..];
      if listings[0].userRef == id then [listings[0]] + rest else rest
  }

  /** The filter keeps the stored order: filtering a concatenation is
      filtering each part and concatenating the results. */
  lemma {:induction false} OwnedByAppend(a: seq<Listing>, b: seq<Listing>, id: Id)
    ensures OwnedBy(a + b, id) == OwnedBy(a, id) + OwnedBy(b, id)
    decreases |a|
  {
    if |a| == 0 {
      assert a + b == b;
    } else {
      assert (a + b)[0] == a[0];
      assert (a + b)[1..] == a[1..] + b;
      OwnedByAppend(a[1..], b, id);
    }
  }

  /** One listing is kept exactly when its owner is the id. Together with
      `OwnedByAppend` this fixes the result: every owned listing, once
      for each time it is stored, in stored order. */
  lemma OwnedBySingle(l: Listing, id: Id)
    ensures OwnedBy([l], id) == if l.userRef == id then [l] else []
  {
    assert [l][1..] == [];
  }

  class Database {
    var accounts: seq<Account>
    var nextId: Id
    var listings: seq<Listing>

    /** The schema invariant, and `nextId` is fresh. */
    ghost predicate Valid()
      reads this
    {
      Stored(accounts) && forall k :: 0 <= k < |accounts| ==> accounts[k].id < nextId
    }

    constructor (listings: seq<Listing>)
      ensures Valid()
      ensures accounts == [] && this.listings == listings
    {
      accounts := [];
      nextId := 0;
      this.listings := listings;
    }

    /** `new User({ ... }).save()`: validate, then append with a fresh id. */
    method Insert(name: string, email: string, password: string, profilePic: Option<string>)
      returns (r: Result<Account, DbError>)
      requires Valid()
      modifies this
      ensures Valid() && listings == old(listings)
      ensures var a := NewAccount(old(nextId), name, email, password, profilePic);
              match SaveError(old(accounts), a)
              case Some(e) => r == Err(e) && accounts == old(accounts) && nextId == old(nextId)
              case None => r == Ok(a) && accounts == old(accounts) + [a] && nextId == old(nextId) + 1
    {
      var a := NewAccount(nextId, name, email, password, profilePic);
      var e := SaveError(accounts, a);
      if e.Some? {
        r := Err(e.value);
      } else {
        StoredAppend(accounts, a);
        accounts := accounts + [a];
        nextId := nextId + 1;
        r := Ok(a);
      }
    }

    /** `doc.save()` on the account at `i` after its fields were assigned. */
    method Save(i: nat, a: Account) returns (e: Option<DbError>)
      requires Valid() && i < |accounts| && a.id == accounts[i].id
      modifies this
      ensures Valid() && listings == old(listings) && nextId == old(nextId)
      ensures e == SaveError(Others(old(accounts), i), a)
      ensures accounts == if e.None? then old(accounts)[i := a] else old(accounts)
    {
      e := SaveError(Others(accounts, i), a);
      if e.None? {
        StoredReplace(accounts, i, a);
        accounts := accounts[i := a];
      }
    }

    /** `findByIdAndDelete(id)`: the removed account, if there was one. */
    method FindByIdAndDelete(id: Id) returns (removed: Option<Account>)
      requires Valid()
      modifies this
      ensures Valid() && listings == old(listings) && nextId == old(nextId)
      ensures match IndexOf(old(accounts), ById(id))
              case None => removed.None? && accounts == old(accounts)
              case Some(i) => removed == Some(old(accounts)[i]) && accounts == Others(old(accounts), i)
    {
      var i := IndexOf(accounts, ById(id));
      if i.None? {
        removed := None;
      } else {
        removed := Some(accounts[i.value]);
        StoredRemove(accounts, i.value);
        accounts := Others(accounts, i.value);
      }
    }

    /** `findByIdAndUpdate(id, { profilePic }, { new: true })`: no
        validators run; an absent picture is dropped from the update. */
    method FindByIdAndUpdatePic(id: Id, profilePic: Option<string>) returns (updated: Option<Account>)
      requires Valid()
      modifies this
      ensures Valid() && listings == old(listings) && nextId == old(nextId)
      ensures match IndexOf(old(accounts), ById(id))
              case None => updated.None? && accounts == old(accounts)
              case Some(i) =>
                var a := old(accounts)[i];
                var a' := if profilePic.Some? then a.(profilePic := profilePic.value) else a;
                updated == Some(a') && accounts == old(accounts)[i := a']
    {
      var i := IndexOf(accounts, ById(id));
      if i.None? {
        updated := None;
      } else {
        var a := accounts[i.value];
        var a' := if profilePic.Some? then a.(profilePic := profilePic.value) else a;
        accounts := accounts[i.value := a'];
        updated := Some(a');
        assert forall k :: 0 <= k < |accounts| ==> old(accounts)[k].id == accounts[k].id && old(accounts)[k].name == accounts[k].name && old(accounts)[k].email == accounts[k].email && old(accounts)[k].password == accounts[k].password;
      }
    }
  }
}

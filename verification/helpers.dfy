/**
 * The lookup helpers of the application: finding a user by e-mail address
 * and selecting the short URLs one user owns. Both read a table and build
 * their answer in a loop; each is proved against a specification function.
 */
module Helpers {
  import opened Wrappers
  import opened Tables

  /** A registered user; `password` holds the stored one-way digest. */
  datatype User = User(id: string, email: string, password: string)

  /** A shortened URL: its destination and the id of the user who owns it. */
  datatype UrlRecord = UrlRecord(longURL: string, userId: string)

  /** No two users share an e-mail address. */
  ghost predicate UniqueEmails(users: map<string, User>)
  {
    forall k1, k2 :: k1 in users && k2 in users && users[k1].email == users[k2].email ==> k1 == k2
  }

  /**
   * Storing a user whose address no stored user has keeps addresses unique,
   * whether the key is new or replaces a user.
   */
  lemma UniqueEmailsPut(users: map<string, User>, id: string, u: User)
    requires UniqueEmails(users)
    requires forall k :: k in users ==> users[k].email != u.email
    ensures UniqueEmails(users[id := u])
  {
    var t := users[id := u];
    forall k1, k2 | k1 in t && k2 in t && k1 != k2
      ensures t[k1].email != t[k2].email
    {
    }
  }

  /**
   * The characters `generateRandomString` can produce: the digits and
   * lower-case letters of a base-36 numeral.
   */
  predicate IsBase36Digit(c: char)
  {
    ('0' <= c <= '9') || ('a' <= c <= 'z')
  }

  /** What `generateRandomString` can return: at most six base-36 digits. */
  predicate IsGeneratedId(s: string)
  {
    |s| <= 6 && forall i :: 0 <= i < |s| ==> IsBase36Digit(s[i])
  }

  // ---------------------------------------------------------------------
  // getUserByEmail

  /**
   * The user `getUserByEmail` answers when it visits the keys in the order
   * `keys`: the first whose e-mail is exactly `email`, or none.
   */
  function FirstWithEmail(email: string, keys: seq<string>, entries: map<string, User>): (r: Option<User>)
    requires forall k :: k in keys ==> k in entries
    ensures r.Some? ==>
      && r.value.email == email
      && exists i :: 0 <= i < |keys| && entries[keys[i]] == r.value
           && forall j :: 0 <= j < i ==> entries[keys[j]].email != email
    ensures r.None? <==> forall i :: 0 <= i < |keys| ==> entries[keys[i]].email != email
    decreases |keys|
  {
    if keys == [] then None
    else if entries[keys[0]].email == email then Some(entries[keys[0]])
    else
      var r := FirstWithEmail(email, keys[1..], entries);
      assert forall i :: 0 < i < |keys| ==> keys[i] == keys[1..][i - 1];
      r
  }

  /** Over a whole table: no answer exactly when no user has that address. */
  lemma FirstWithEmailInTable(email: string, users: Table<User>)
    requires users.Valid()
    ensures FirstWithEmail(email, users.keys, users.entries).None?
            <==> forall k :: k in users.entries ==> users.entries[k].email != email
    ensures FirstWithEmail(email, users.keys, users.entries).Some? ==>
            exists k :: k in users.entries && users.entries[k] == FirstWithEmail(email, users.keys, users.entries).value
  {
    var r := FirstWithEmail(email, users.keys, users.entries);
    if r.None? {
      forall k | k in users.entries ensures users.entries[k].email != email {
        var i :| 0 <= i < |users.keys| && users.keys[i] == k;
      }
    } else {
      var i :| 0 <= i < |users.keys| && users.entries[users.keys[i]] == r.value;
      assert users.keys[i] in users.entries;
    }
  }

  /** With unique addresses the visiting order does not matter: the answer is the one user with that address. */
  lemma FirstWithEmailUnique(email: string, users: Table<User>, k: string)
    requires users.Valid() && UniqueEmails(users.entries)
    requires k in users.entries && users.entries[k].email == email
    ensures FirstWithEmail(email, users.keys, users.entries) == Some(users.entries[k])
  {
    FirstWithEmailInTable(email, users);
    var r := FirstWithEmail(email, users.keys, users.entries);
    var i :| 0 <= i < |users.keys| && users.entries[users.keys[i]] == r.value;
    assert users.entries[users.keys[i]].email == users.entries[k].email;
  }

  /**
   * `getUserByEmail(email, users)`: a `for…in` loop over the keys that
   * returns the first user whose e-mail is exactly `email`, else null.
   */
  method GetUserByEmail(email: string, users: Table<User>) returns (r: Option<User>)
    requires users.Valid()
    ensures r == FirstWithEmail(email, users.keys, users.entries)
  {
    for i := 0 to |users.keys|
      invariant FirstWithEmail(email, users.keys[i..], users.entries)
                == FirstWithEmail(email, users.keys, users.entries)
    {
      assert users.keys[i..][1..] == users.keys[i + 1..];
      var user := users.entries[users.keys[i]];
      if user.email == email {
        return Some(user);
      }
    }
    return None;
  }

  // ---------------------------------------------------------------------
  // urlForUser

  /** The keys of the records owned by `id`, in the order they are visited. */
  function OwnedKeys(id: string, keys: seq<string>, entries: map<string, UrlRecord>): (r: seq<string>)
    requires forall k :: k in keys ==> k in entries
    ensures forall k :: k in r <==> k in keys && entries[k].userId == id
    ensures Distinct(keys) ==> Distinct(r)
    ensures forall i, j :: 0 <= i < j < |r| ==> Before(keys, r[i], r[j])
    decreases |keys|
  {
    if keys == [] then []
    else
      var init := keys[..|keys| - 1];
      var last := keys[|keys| - 1];
      assert keys == init + [last];
      var r := OwnedKeys(id, init, entries);
      assert Distinct(keys) ==> Distinct(r + [last]) by {
        if Distinct(keys) && entries[last].userId == id {
          DistinctAppend(r, last);
        }
      }
      var r' := if entries[last].userId == id then r + [last] else r;
      BeforeAppend(init, last, r, r');
      r'
  }

  /** The records of `db` owned by `id`: the specification of `urlForUser`. */
  function UrlsFor(id: string, db: Table<UrlRecord>): (r: Table<UrlRecord>)
    requires db.Valid()
    ensures r.Valid()
    ensures forall k :: k in r.entries ==> k in db.entries && r.entries[k] == db.entries[k] && r.entries[k].userId == id
    ensures forall k :: k in db.entries && db.entries[k].userId == id ==> k in r.entries
    ensures forall i, j :: 0 <= i < j < |r.keys| ==> Before(db.keys, r.keys[i], r.keys[j])
  {
    Table(OwnedKeys(id, db.keys, db.entries),
          map k | k in db.entries && db.entries[k].userId == id :: db.entries[k])
  }

  /**
   * `urlForUser(id, urlDatabase)`: starting from `{}`, a `for…in` loop copies
   * every record whose `userId` is exactly `id`, under the same key.
   */
  method UrlForUser(id: string, db: Table<UrlRecord>) returns (filtered: Table<UrlRecord>)
    requires db.Valid()
    ensures filtered == UrlsFor(id, db)
  {
    filtered := Empty();
    for i := 0 to |db.keys|
      invariant filtered.Valid()
      invariant filtered.keys == OwnedKeys(id, db.keys[..i], db.entries)
      invariant forall k :: k in filtered.entries ==> filtered.entries[k] == db.entries[k]
    {
      var urlId := db.keys[i];
      assert db.keys[..i + 1] == db.keys[..i] + [urlId];
      DistinctPrefix(db.keys, i);
      if db.entries[urlId].userId == id {
        filtered := filtered.Put(urlId, db.entries[urlId]);
      }
    }
    assert db.keys[..|db.keys|] == db.keys;
    assert filtered.entries == UrlsFor(id, db).entries;
  }
}

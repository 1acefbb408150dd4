/**
 * Request sequences, most of them against a freshly started server (the seed
 * tables, no session), checked from the handlers' contracts alone.
 */
module Scenarios {
  import opened Wrappers
  import opened Tables
  import opened Helpers
  import opened Server

  lemma ScenarioIdsGenerated()
    ensures IsGeneratedId("aaaaa1") && IsGeneratedId("bbbbb2") && IsGeneratedId("abc123")
  {
  }

  /** Storing a user with another address keeps an address free. */
  lemma AddressStillFree(users: Table<User>, id: string, user: User, email: string)
    requires users.Valid()
    requires forall k :: k in users.entries ==> users.entries[k].email != email
    requires user.email != email
    ensures forall k :: k in users.Put(id, user).entries ==> users.Put(id, user).entries[k].email != email
  {
  }

  /** An address other than the two seed addresses is free in the seed table. */
  lemma SeedAddressFree(hashPassword: string -> string, email: string)
    requires email != "user@example.com" && email != "user2@example.com"
    ensures forall k :: k in SeedUsers(hashPassword).entries ==> SeedUsers(hashPassword).entries[k].email != email
  {
  }

  /**
   * A registers and shortens a URL; B registers and tries to delete it: B is
   * refused and the short code still leads to A's destination.
   */
  method NonOwnerCannotDelete(hashPassword: string -> string, passwordMatches: (string, string) -> bool)
    returns (deleteReply: Reply, followReply: Reply)
    ensures deleteReply == Send(NotAuthorized)
    ensures followReply == Redirect("http://example.com")
  {
    var app := new App(hashPassword, passwordMatches);
    ScenarioIdsGenerated();
    SeedAddressFree(hashPassword, "a@x.com");
    SeedAddressFree(hashPassword, "b@x.com");
    AddressStillFree(SeedUsers(hashPassword), "aaaaa1", User("aaaaa1", "a@x.com", hashPassword("pw1")), "b@x.com");
    var _ := app.Register("a@x.com", "pw1", "aaaaa1");
    assert app.session == Some("aaaaa1") && "aaaaa1" in app.users.entries;
    var _ := app.CreateUrl("http://example.com", "abc123");
    assert app.urlDatabase.entries["abc123"] == UrlRecord("http://example.com", "aaaaa1");
    var _ := app.Register("b@x.com", "pw2", "bbbbb2");
    assert app.session == Some("bbbbb2");
    deleteReply := app.DeleteUrl("abc123");
    followReply := app.FollowShortUrl("abc123");
  }

  /**
   * On any running server, registering a free address, logging out and
   * logging back in with the same address and password binds the session to
   * the registered id again, provided the digest matches the password it was
   * made from.
   */
  method RegisterThenLogin(app: App, email: string, password: string, id: string) returns (reply: Reply)
    requires app.Valid()
    requires IsGeneratedId(id)
    requires email != "" && password != ""
    requires forall k :: k in app.users.entries ==> app.users.entries[k].email != email
    requires forall p :: app.passwordMatches(p, app.hashPassword(p))
    modifies app
    ensures app.Valid()
    ensures reply == Redirect("/urls") && app.session == Some(id)
  {
    var _ := app.Register(email, password, id);
    var _ := app.Logout();
    assert app.users.entries[id] == User(id, email, app.hashPassword(password));
    reply := app.Login(email, password);
  }

  /** Registering an address that is already in use is refused and leaves the users as they were. */
  method DuplicateRegistration(hashPassword: string -> string, passwordMatches: (string, string) -> bool,
                               password: string, id: string)
    returns (reply: Reply, users: Table<User>)
    requires password != "" && IsGeneratedId(id)
    ensures reply == SendStatus(400, EmailTaken)
    ensures users == SeedUsers(hashPassword)
  {
    var app := new App(hashPassword, passwordMatches);
    assert app.users.entries["userRandomID"].email == "user@example.com";
    reply := app.Register("user@example.com", password, id);
    users := app.users;
  }

  /** A table in which only `code` belongs to `id` lists exactly that one record for `id`. */
  lemma SoleOwnedRecord(id: string, db: Table<UrlRecord>, code: string)
    requires db.Valid()
    requires code in db.entries && db.entries[code].userId == id
    requires forall k :: k in db.entries && k != code ==> db.entries[k].userId != id
    ensures UrlsFor(id, db).entries == map[code := db.entries[code]]
  {
  }

  /** Storing `code` for a user who owns none of the seed URLs leaves it as that user's only URL. */
  lemma NewOwnerOwnsOnlyCode(longURL: string, code: string)
    ensures forall k :: k in SeedUrls().Put(code, UrlRecord(longURL, "aaaaa1")).entries && k != code ==>
                        SeedUrls().Put(code, UrlRecord(longURL, "aaaaa1")).entries[k].userId != "aaaaa1"
  {
    assert |"aaaaa1"| != |"userRandomID"| && |"aaaaa1"| != |"user2RandomID"|;
    SeedUrlsValid(x => x);
  }

  /**
   * A new user's short URL: its detail page shows the destination to its
   * owner, the short link leads there, and the owner's index lists only it.
   */
  method CreateThenRead(hashPassword: string -> string, passwordMatches: (string, string) -> bool,
                        longURL: string, code: string)
    returns (showReply: Reply, followReply: Reply, indexReply: Reply)
    requires longURL != "" && IsGeneratedId(code)
    ensures showReply == RenderShow(code, longURL, User("aaaaa1", "a@x.com", hashPassword("pw1")))
    ensures followReply == Redirect(longURL)
    ensures indexReply.RenderIndex?
    ensures indexReply.urls.entries == map[code := UrlRecord(longURL, "aaaaa1")]
  {
    var app := new App(hashPassword, passwordMatches);
    ScenarioIdsGenerated();
    SeedAddressFree(hashPassword, "a@x.com");
    var _ := app.Register("a@x.com", "pw1", "aaaaa1");
    assert app.session == Some("aaaaa1") && "aaaaa1" in app.users.entries;
    var _ := app.CreateUrl(longURL, code);
    showReply := app.ShowUrl(code);
    followReply := app.FollowShortUrl(code);
    NewOwnerOwnsOnlyCode(longURL, code);
    SoleOwnedRecord("aaaaa1", app.urlDatabase, code);
    indexReply := app.Index();
  }

  /**
   * The update handler as written: a logged-out request to an existing code
   * is told to log in, yet the destination has been replaced.
   */
  method LoggedOutUpdateOverwrites(hashPassword: string -> string, passwordMatches: (string, string) -> bool)
    returns (reply: Reply, stored: string)
    ensures reply == Send(MustLoginRegister)
    ensures stored == "http://evil.example"
  {
    var app := new App(hashPassword, passwordMatches);
    reply := app.UpdateUrl("b2xVn2", "http://evil.example");
    stored := app.urlDatabase.entries["b2xVn2"].longURL;
  }

  /** The same request to the corrected handler leaves the destination alone. */
  method LoggedOutUpdateCheckedKeeps(hashPassword: string -> string, passwordMatches: (string, string) -> bool)
    returns (reply: Reply, stored: string)
    ensures reply == Send(MustLoginRegister)
    ensures stored == "http://www.lighthouselabs.ca"
  {
    var app := new App(hashPassword, passwordMatches);
    reply := app.UpdateUrlChecked("b2xVn2", "http://evil.example");
    stored := app.urlDatabase.entries["b2xVn2"].longURL;
  }

  /**
   * Following a code nobody created: the handler as written fails with a
   * server error, the corrected one answers "URL not found".
   */
  method MissingShortCode(hashPassword: string -> string, passwordMatches: (string, string) -> bool)
    returns (asWritten: Reply, corrected: Reply)
    ensures asWritten == ServerError
    ensures corrected == Send(UrlNotFound)
  {
    var app := new App(hashPassword, passwordMatches);
    assert "zzzzzz"[0] != "b2xVn2"[0] && "zzzzzz"[0] != "9sm5xK"[0];
    assert "zzzzzz" !in app.urlDatabase.entries;
    ShortKeyIsPlain("zzzzzz");
    assert app.Lookup("zzzzzz") == Absent;
    asWritten := app.FollowShortUrl("zzzzzz");
    corrected := app.FollowShortUrlChecked("zzzzzz");
  }

  /**
   * A member of Object.prototype used as a short code, on a server where
   * nothing has been written on Object.prototype: the redirect handler finds
   * no destination, and a logged-out caller of the detail or delete handler
   * is asked to log in, since the code passes the existence check. The
   * corrected redirect handler answers "URL not found" as well.
   */
  method InheritedNameAsCode(app: App) returns (followReply: Reply, showReply: Reply, deleteReply: Reply,
                                                correctedFollow: Reply)
    requires app.Valid() && app.inheritedLongURL == map[] && app.SessionUser().None?
    modifies app
    ensures followReply == Send(UrlNotFound)
    ensures showReply == Send(MustLoginRegister)
    ensures deleteReply == Send(MustLoginRegister)
    ensures correctedFollow == Send(UrlNotFound)
    ensures app.urlDatabase == old(app.urlDatabase)
  {
    assert IsInheritedName("toString");
    assert "toString" !in app.urlDatabase.entries;
    followReply := app.FollowShortUrl("toString");
    showReply := app.ShowUrl("toString");
    deleteReply := app.DeleteUrl("toString");
    correctedFollow := app.FollowShortUrlChecked("toString");
  }

  /**
   * The update handler as written, asked to update `__proto__` on a server
   * where nothing has been written on Object.prototype: the caller is refused,
   * yet `longURL` is now set on Object.prototype, so `/u/constructor` and
   * `/u/longURL` redirect to the caller's destination.
   */
  method PrototypeWrite(app: App, target: string) returns (updateReply: Reply, constructorReply: Reply,
                                                         longUrlReply: Reply)
    requires app.Valid() && app.inheritedLongURL == map[] && target != ""
    modifies app
    ensures old(app.SessionUser()).None? ==> updateReply == Send(MustLoginRegister)
    ensures old(app.SessionUser()).Some? ==> updateReply == Send(NotAutherized)
    ensures app.urlDatabase == old(app.urlDatabase)
    ensures app.inheritedLongURL == map[ProtoKey := target]
    ensures constructorReply == Redirect(target)
    ensures longUrlReply == Redirect(target)
  {
    assert IsInheritedName("__proto__") && IsInheritedName("constructor") && !IsInheritedName("longURL");
    assert "__proto__" !in app.urlDatabase.entries;
    updateReply := app.UpdateUrl("__proto__", target);
    assert "constructor" !in app.urlDatabase.entries && "longURL" !in app.urlDatabase.entries;
    assert app.Lookup("constructor") == Inherited("constructor");
    assert app.Lookup("longURL") == InheritedText(target);
    constructorReply := app.FollowShortUrl("constructor");
    longUrlReply := app.FollowShortUrl("longURL");
  }

  /** The same request to the corrected handler is refused and writes nothing. */
  method PrototypeWriteChecked(app: App, target: string) returns (updateReply: Reply, constructorReply: Reply)
    requires app.Valid() && app.inheritedLongURL == map[]
    modifies app
    ensures updateReply == Send(UrlDoesNotExist)
    ensures app.urlDatabase == old(app.urlDatabase) && app.inheritedLongURL == map[]
    ensures constructorReply == Send(UrlNotFound)
  {
    assert IsInheritedName("__proto__") && IsInheritedName("constructor");
    assert "__proto__" !in app.urlDatabase.entries && "constructor" !in app.urlDatabase.entries;
    updateReply := app.UpdateUrlChecked("__proto__", target);
    constructorReply := app.FollowShortUrl("constructor");
  }
}

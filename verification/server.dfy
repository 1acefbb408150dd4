/**
 * The request handlers of the URL shortener, as a state machine over the two
 * in-memory tables (`urlDatabase`, `users`) and the user id bound to the
 * current client's session. Each handler that reads or changes the tables is a
 * method returning the reply it sends.
 */
module Server {
  import opened Wrappers
  import opened Tables
  import opened Helpers

  /** What a handler answers. */
  datatype Reply =
    | Send(body: string)                              // res.send(text), status 200
    | SendStatus(status: int, body: string)           // res.status(status).send(text)
    | Redirect(location: string)                      // res.redirect(location)
    | RenderIndex(urls: Table<UrlRecord>, user: User) // the "urls_index" view
    | RenderNew(user: User)                           // the "urls_new" view
    | RenderShow(id: string, longURL: string, user: User) // the "urls_show" view
    | RenderRegister                                  // the "register" view, with no user
    | RenderLogin                                     // the "login" view, with no user
    | ServerError                                     // an uncaught TypeError, answered 500

  // The texts of the plain replies, spelled as the handlers spell them.
  const MustLoginRegister := "You must login/register first"
  const MustLogin := "You must login"
  const UrlDoesNotExist := "URL doesn't exist"
  const UrlNotFound := "URL not found"
  const NotAutherized := "Not Autherized to access this page"
  const NotAuthorized := "Not authorized to access this page"
  const EmailNotFound := "Email not found"
  const IncorrectPassword := "Incorrect password"
  const MissingCredentials := "Insert your email or password"
  const EmailTaken := "Email is already exist"

  /** The property name JavaScript uses for `obj[undefined]`. */
  const Undefined := "undefined"

  /** The name of the destination property of a URL record. */
  const LongUrlProp := "longURL"

  /** The inherited name under which `obj["__proto__"]` reaches `Object.prototype` itself. */
  const ProtoKey := "__proto__"

  /**
   * A key that plain property access reads only from the object itself: not
   * an inherited name, and not `longURL`, which every object inherits once
   * a value has been written on `Object.prototype`.
   */
  predicate IsPlainKey(k: string)
  {
    !IsInheritedName(k) && k != LongUrlProp
  }

  /** A generated id is plain and is not `undefined`. */
  lemma GeneratedIdIsPlain(s: string)
    requires IsGeneratedId(s)
    ensures IsPlainKey(s) && s != Undefined
  {
    ShortKeyIsPlain(s);
  }

  /** Every inherited name, `longURL` and `undefined` are longer than six characters. */
  lemma ShortKeyIsPlain(s: string)
    requires |s| <= 6
    ensures IsPlainKey(s) && s != Undefined
  {
    assert forall n :: n in ObjectPrototypeNames ==> |n| > 6;
  }

  /** What `urlDatabase[code]` evaluates to. */
  datatype UrlSlot =
    | Stored(record: UrlRecord)   // an own key: the record
    | Inherited(name: string)     // a member of Object.prototype (a function, or Object.prototype itself)
    | InheritedText(text: string) // `longURL` inherited from Object.prototype: a string
    | Absent                      // `undefined`

  /** The truth value JavaScript gives the slot in `if (!urlDatabase[code])`. */
  predicate Truthy(v: UrlSlot)
  {
    match v
    case Stored(_) => true
    case Inherited(_) => true
    case InheritedText(t) => t != ""
    case Absent => false
  }

  /** `urlDatabase[code].userId`: only a stored record has one. */
  function UserIdOf(v: UrlSlot): Option<string>
  {
    if v.Stored? then Some(v.record.userId) else None
  }

  /** The seed URL table the server starts with. */
  function SeedUrls(): Table<UrlRecord>
  {
    Table(["b2xVn2", "9sm5xK"],
          map["b2xVn2" := UrlRecord("http://www.lighthouselabs.ca", "userRandomID"),
              "9sm5xK" := UrlRecord("http://www.google.com", "user2RandomID")])
  }

  /** The seed user table, each password stored as its digest. */
  function SeedUsers(hashPassword: string -> string): Table<User>
  {
    Table(["userRandomID", "user2RandomID"],
          map["userRandomID" := User("userRandomID", "user@example.com", hashPassword("purple-monkey-dinosaur")),
              "user2RandomID" := User("user2RandomID", "user2@example.com", hashPassword("dishwasher-funk"))])
  }

  /** Every URL record is stored under a plain key and owned by a stored user. */
  ghost predicate UrlsConsistent(db: Table<UrlRecord>, users: map<string, User>)
  {
    && db.Valid()
    && (forall k :: k in db.entries ==> IsPlainKey(k) && db.entries[k].userId in users)
  }

  /**
   * Every user is stored under its own plain id, e-mail addresses are
   * unique, and no user is stored under the name `undefined`.
   */
  ghost predicate UsersConsistent(users: Table<User>)
  {
    && users.Valid()
    && (forall k :: k in users.entries ==> users.entries[k].id == k && IsPlainKey(k))
    && UniqueEmails(users.entries)
    && Undefined !in users.entries
  }

  /** The seed URL table is well formed and each of its records is owned by a seed user. */
  lemma SeedUrlsValid(hashPassword: string -> string)
    ensures UrlsConsistent(SeedUrls(), SeedUsers(hashPassword).entries)
  {
    var urls, users := SeedUrls(), SeedUsers(hashPassword);
    assert "b2xVn2"[0] != "9sm5xK"[0];
    assert urls.entries.Keys == {"b2xVn2", "9sm5xK"};
    ShortKeyIsPlain("b2xVn2");
    ShortKeyIsPlain("9sm5xK");
    assert "userRandomID" in users.entries && "user2RandomID" in users.entries;
  }

  /** The seed user table is well formed, keyed by id, with two distinct addresses. */
  lemma SeedUsersValid(hashPassword: string -> string)
    ensures UsersConsistent(SeedUsers(hashPassword))
  {
    var t := SeedUsers(hashPassword);
    assert |"userRandomID"| != |"user2RandomID"|;
    assert |"user@example.com"| != |"user2@example.com"|;
    assert |Undefined| != |"userRandomID"| && |Undefined| != |"user2RandomID"|;
    assert t.entries.Keys == {"userRandomID", "user2RandomID"};
    forall k1, k2 | k1 in t.entries && k2 in t.entries && k1 != k2
      ensures t.entries[k1].email != t.entries[k2].email
    {
    }
  }

  /** `urlDatabase[k] = r` under a plain key, for a stored owner, keeps the URL table consistent. */
  lemma UrlsConsistentPut(db: Table<UrlRecord>, users: map<string, User>, k: string, r: UrlRecord)
    requires UrlsConsistent(db, users)
    requires IsPlainKey(k) && r.userId in users
    ensures UrlsConsistent(db.Put(k, r), users)
  {
  }

  /** `delete urlDatabase[k]` keeps the URL table consistent. */
  lemma UrlsConsistentRemove(db: Table<UrlRecord>, users: map<string, User>, k: string)
    requires UrlsConsistent(db, users)
    ensures UrlsConsistent(db.Remove(k), users)
  {
  }

  /** Storing a user keeps every URL owned by a stored user. */
  lemma UrlsConsistentGrow(db: Table<UrlRecord>, users: map<string, User>, id: string, u: User)
    requires UrlsConsistent(db, users)
    ensures UrlsConsistent(db, users[id := u])
  {
  }

  /**
   * Storing a user under its own plain id, with an address no stored user
   * has, keeps the user table consistent, even when it replaces a user.
   */
  lemma UsersConsistentPut(users: Table<User>, u: User)
    requires UsersConsistent(users)
    requires IsPlainKey(u.id) && u.id != Undefined
    requires forall k :: k in users.entries ==> users.entries[k].email != u.email
    ensures UsersConsistent(users.Put(u.id, u))
  {
    UniqueEmailsPut(users.entries, u.id, u);
  }

  class App {
    /** `bcrypt.hashSync`: the digest stored for a password. */
    const hashPassword: string -> string
    /** `bcrypt.compareSync`: whether a candidate password matches a stored digest. */
    const passwordMatches: (string, string) -> bool

    var urlDatabase: Table<UrlRecord>
    var users: Table<User>
    /** `req.session.user_id` of the current client; `None` when unset. */
    var session: Option<string>
    /**
     * The `longURL` properties the update handler has written on objects
     * reached through inherited names: by name for the members of
     * Object.prototype, and under `__proto__` for Object.prototype itself.
     */
    var inheritedLongURL: map<string, string>

    /**
     * What every handler keeps: both tables well formed, each user stored
     * under its own id, e-mail addresses unique, no user under the name
     * `undefined`, every URL owned by a stored user, every stored key and the
     * session id plain, and inherited writes only under inherited names.
     */
    ghost predicate Valid()
      reads this
    {
      && UrlsConsistent(urlDatabase, users.entries)
      && UsersConsistent(users)
      && (session.Some? ==> IsPlainKey(session.value))
      && (forall k :: k in inheritedLongURL ==> IsInheritedName(k))
    }

    /** The property name `req.session["user_id"]` selects in `users[…]`. */
    function SessionKey(): string
      reads this
    {
      match session
      case None => Undefined
      case Some(id) => id
    }

    /** `users[req.session["user_id"]]`: the logged-in user, if any. */
    function SessionUser(): Option<User>
      reads this
    {
      if SessionKey() in users.entries then Some(users.entries[SessionKey()]) else None
    }

    /** The value of `urlDatabase[code]`: an own key first, then what every plain object inherits. */
    function Lookup(code: string): UrlSlot
      reads this
    {
      if code in urlDatabase.entries then Stored(urlDatabase.entries[code])
      else if IsInheritedName(code) then Inherited(code)
      else if code == LongUrlProp && ProtoKey in inheritedLongURL then InheritedText(inheritedLongURL[ProtoKey])
      else Absent
    }

    /** `urlDatabase[code]` is truthy: the test the handlers call existence. */
    predicate Present(code: string)
      reads this
    {
      Truthy(Lookup(code))
    }

    /**
     * `urlDatabase[code].longURL` for a slot that is not `undefined`. A member
     * of Object.prototype is a function, which inherits from Object.prototype;
     * a string inherits from it as well.
     */
    function LongUrlOf(v: UrlSlot): Option<string>
      reads this
      requires !v.Absent?
    {
      match v
      case Stored(r) => Some(r.longURL)
      case Inherited(m) =>
        if m != ProtoKey && m in inheritedLongURL then Some(inheritedLongURL[m])
        else if ProtoKey in inheritedLongURL then Some(inheritedLongURL[ProtoKey])
        else None
      case InheritedText(_) =>
        if ProtoKey in inheritedLongURL then Some(inheritedLongURL[ProtoKey]) else None
    }

    /** `urlDatabase[code].userId === req.session["user_id"]`. */
    predicate OwnedBySession(code: string)
      reads this
    {
      UserIdOf(Lookup(code)) == session
    }

    /** Logged in means the session holds the id of a stored user. */
    lemma SessionUserIsSessionId()
      requires Valid()
      ensures SessionUser().Some? <==> session.Some? && session.value in users.entries
      ensures SessionUser().Some? ==> SessionUser().value.id == session.value
    {
    }

    /** A logged-in caller owns only stored records. */
    lemma OwnedIsStored(code: string)
      requires Valid() && SessionUser().Some? && OwnedBySession(code)
      ensures code in urlDatabase.entries && Some(urlDatabase.entries[code].userId) == session
    {
    }

    /** The server at start-up: the seed tables, nothing written on Object.prototype, and no session. */
    constructor (hashPassword: string -> string, passwordMatches: (string, string) -> bool)
      ensures Valid()
      ensures this.hashPassword == hashPassword && this.passwordMatches == passwordMatches
      ensures urlDatabase == SeedUrls() && users == SeedUsers(hashPassword) && session == None
      ensures inheritedLongURL == map[]
    {
      this.hashPassword := hashPassword;
      this.passwordMatches := passwordMatches;
      SeedUrlsValid(hashPassword);
      SeedUsersValid(hashPassword);
      urlDatabase := SeedUrls();
      users := SeedUsers(hashPassword);
      session := None;
      inheritedLongURL := map[];
    }

    /** GET /urls: the caller's own URLs, or a request to log in. */
    method Index() returns (reply: Reply)
      requires Valid()
      ensures SessionUser().None? ==> reply == Send(MustLoginRegister)
      ensures SessionUser().Some? ==>
        && session.Some?
        && reply == RenderIndex(UrlsFor(session.value, urlDatabase), SessionUser().value)
    {
      var user := SessionUser();
      if user.None? {
        return Send(MustLoginRegister);
      }
      SessionUserIsSessionId();
      var urls := UrlForUser(session.value, urlDatabase);
      reply := RenderIndex(urls, user.value);
    }

    /** GET /urls/new: the creation form, or a redirect to the login page. */
    method NewUrlForm() returns (reply: Reply)
      ensures SessionUser().None? ==> reply == Redirect("/login")
      ensures SessionUser().Some? ==> reply == RenderNew(SessionUser().value)
    {
      var user := SessionUser();
      if user.None? {
        return Redirect("/login");
      }
      reply := RenderNew(user.value);
    }

    /**
     * GET /urls/:id: existence is checked before login, login before
     * ownership; only the owner sees the destination. An inherited name
     * passes the existence check and is owned by nobody.
     */
    method ShowUrl(id: string) returns (reply: Reply)
      requires Valid()
      ensures !Present(id) ==> reply == Send(UrlDoesNotExist)
      ensures Present(id) && SessionUser().None? ==> reply == Send(MustLoginRegister)
      ensures Present(id) && SessionUser().Some? && !OwnedBySession(id) ==> reply == Send(NotAutherized)
      ensures reply.RenderShow? <==> Present(id) && SessionUser().Some? && OwnedBySession(id)
      ensures reply.RenderShow? ==>
        && id in urlDatabase.entries
        && reply == RenderShow(id, urlDatabase.entries[id].longURL, SessionUser().value)
    {
      var user := SessionUser();
      if !Present(id) {
        return Send(UrlDoesNotExist);
      }
      if user.None? {
        return Send(MustLoginRegister);
      }
      if !OwnedBySession(id) {
        return Send(NotAutherized);
      }
      OwnedIsStored(id);
      reply := RenderShow(id, urlDatabase.entries[id].longURL, user.value);
    }

    /**
     * GET /u/:id, as written: `.longURL` is read before any check, so a code
     * whose slot is `undefined` throws; a destination that is missing or
     * empty gives "URL not found"; otherwise the reply redirects to it.
     */
    method FollowShortUrl(id: string) returns (reply: Reply)
      ensures reply == ServerError <==> Lookup(id).Absent?
      ensures !Lookup(id).Absent? && (LongUrlOf(Lookup(id)) == None || LongUrlOf(Lookup(id)) == Some("")) ==>
              reply == Send(UrlNotFound)
      ensures !Lookup(id).Absent? && LongUrlOf(Lookup(id)).Some? && LongUrlOf(Lookup(id)).value != "" ==>
              reply == Redirect(LongUrlOf(Lookup(id)).value)
      ensures id in urlDatabase.entries && urlDatabase.entries[id].longURL != "" ==>
              reply == Redirect(urlDatabase.entries[id].longURL)
    {
      var slot := Lookup(id);
      if slot.Absent? {
        return ServerError;
      }
      var longURL := LongUrlOf(slot);
      if longURL == None || longURL == Some("") {
        return Send(UrlNotFound);
      }
      reply := Redirect(longURL.value);
    }

    /**
     * GET /u/:id with the record's presence among the table's own keys
     * checked first: any other code is "URL not found".
     */
    method FollowShortUrlChecked(id: string) returns (reply: Reply)
      ensures reply != ServerError
      ensures id !in urlDatabase.entries ==> reply == Send(UrlNotFound)
      ensures reply.Redirect? <==> id in urlDatabase.entries && urlDatabase.entries[id].longURL != ""
      ensures reply.Redirect? ==> reply.location == urlDatabase.entries[id].longURL
    {
      if id !in urlDatabase.entries || urlDatabase.entries[id].longURL == "" {
        return Send(UrlNotFound);
      }
      reply := Redirect(urlDatabase.entries[id].longURL);
    }

    /** GET /register: a logged-in user is sent on to "urls". */
    method RegisterForm() returns (reply: Reply)
      ensures SessionUser().Some? ==> reply == Redirect("urls")
      ensures SessionUser().None? ==> reply == RenderRegister
    {
      if SessionUser().Some? {
        return Redirect("urls");
      }
      reply := RenderRegister;
    }

    /** GET /login: a logged-in user is sent on to "/urls". */
    method LoginForm() returns (reply: Reply)
      ensures SessionUser().Some? ==> reply == Redirect("/urls")
      ensures SessionUser().None? ==> reply == RenderLogin
    {
      if SessionUser().Some? {
        return Redirect("/urls");
      }
      reply := RenderLogin;
    }

    /**
     * POST /urls: a logged-in user's new record is stored under the
     * generated `code`, replacing any record already there; nothing changes
     * otherwise.
     */
    method CreateUrl(longURL: string, code: string) returns (reply: Reply)
      requires Valid()
      requires IsGeneratedId(code)
      modifies this
      ensures Valid()
      ensures users == old(users) && session == old(session) && inheritedLongURL == old(inheritedLongURL)
      ensures old(SessionUser()).None? ==> reply == Send(MustLogin) && urlDatabase == old(urlDatabase)
      ensures old(SessionUser()).Some? ==>
        && session.Some?
        && urlDatabase == old(urlDatabase).Put(code, UrlRecord(longURL, session.value))
        && reply == Redirect("/urls/" + code)
    {
      var user := SessionUser();
      if user.None? {
        return Send(MustLogin);
      }
      SessionUserIsSessionId();
      GeneratedIdIsPlain(code);
      UrlsConsistentPut(urlDatabase, users.entries, code, UrlRecord(longURL, session.value));
      urlDatabase := urlDatabase.Put(code, UrlRecord(longURL, session.value));
      reply := Redirect("/urls/" + code);
    }

    /**
     * POST /urls/:id/delete: the record goes only when it is present, the
     * caller is logged in and owns it; every other outcome changes nothing.
     */
    method DeleteUrl(id: string) returns (reply: Reply)
      requires Valid()
      modifies this
      ensures Valid()
      ensures users == old(users) && session == old(session) && inheritedLongURL == old(inheritedLongURL)
      ensures !old(Present(id)) ==> reply == Send(UrlDoesNotExist) && urlDatabase == old(urlDatabase)
      ensures old(Present(id)) && old(SessionUser()).None? ==>
              reply == Send(MustLoginRegister) && urlDatabase == old(urlDatabase)
      ensures old(Present(id)) && old(SessionUser()).Some? && !old(OwnedBySession(id)) ==>
              reply == Send(NotAuthorized) && urlDatabase == old(urlDatabase)
      ensures old(Present(id)) && old(SessionUser()).Some? && old(OwnedBySession(id)) ==>
              && id in old(urlDatabase.entries)
              && reply == Redirect("/urls")
              && urlDatabase == old(urlDatabase).Remove(id)
    {
      var user := SessionUser();
      if !Present(id) {
        return Send(UrlDoesNotExist);
      }
      if user.None? {
        return Send(MustLoginRegister);
      }
      if !OwnedBySession(id) {
        return Send(NotAuthorized);
      }
      OwnedIsStored(id);
      UrlsConsistentRemove(urlDatabase, users.entries, id);
      urlDatabase := urlDatabase.Remove(id);
      reply := Redirect("/urls");
    }

    /** `urlDatabase[id].longURL = newLongURL` on a stored record: the record keeps its owner and its key. */
    method SetDestination(id: string, newLongURL: string)
      requires Valid() && id in urlDatabase.entries
      modifies this
      ensures Valid()
      ensures urlDatabase == old(urlDatabase).Put(id, old(urlDatabase.entries[id]).(longURL := newLongURL))
      ensures users == old(users) && session == old(session) && inheritedLongURL == old(inheritedLongURL)
    {
      var updated := urlDatabase.entries[id].(longURL := newLongURL);
      UrlsConsistentPut(urlDatabase, users.entries, id, updated);
      urlDatabase := urlDatabase.Put(id, updated);
    }

    /**
     * `urlDatabase[id].longURL = newLongURL`: a stored record gets the new
     * destination, an inherited member of Object.prototype (or
     * Object.prototype itself, under `__proto__`) gets a `longURL` property,
     * a string ignores the write, and `undefined` throws. The value the
     * handlers then test for `id`, and its owner, are what they were.
     */
    method AssignLongUrl(id: string, newLongURL: string) returns (thrown: bool)
      requires Valid()
      modifies this
      ensures Valid()
      ensures users == old(users) && session == old(session)
      ensures thrown <==> old(Lookup(id)).Absent?
      ensures old(Lookup(id)).Stored? ==>
              && urlDatabase == old(urlDatabase).Put(id, old(urlDatabase.entries[id]).(longURL := newLongURL))
              && inheritedLongURL == old(inheritedLongURL)
      ensures old(Lookup(id)).Inherited? ==>
              urlDatabase == old(urlDatabase) && inheritedLongURL == old(inheritedLongURL)[id := newLongURL]
      ensures old(Lookup(id)).InheritedText? || old(Lookup(id)).Absent? ==>
              urlDatabase == old(urlDatabase) && inheritedLongURL == old(inheritedLongURL)
      ensures Present(id) == old(Present(id)) && OwnedBySession(id) == old(OwnedBySession(id))
    {
      if id in urlDatabase.entries {
        SetDestination(id, newLongURL);
      } else if IsInheritedName(id) {
        inheritedLongURL := inheritedLongURL[id := newLongURL];
      } else if !(id == LongUrlProp && ProtoKey in inheritedLongURL) {
        return true;
      }
      thrown := false;
    }

    /**
     * A code whose slot is not `undefined` fails the existence check only
     * when it is `longURL` and Object.prototype.longURL is the empty string.
     */
    lemma DefinedButFalsy(id: string)
      requires Valid()
      ensures !Lookup(id).Absent? && !Present(id) <==>
              id == LongUrlProp && ProtoKey in inheritedLongURL && inheritedLongURL[ProtoKey] == ""
    {
    }

    /**
     * POST /urls/:id, as written: `.longURL` is assigned before any check
     * (`AssignLongUrl`), and a code whose slot is `undefined` throws there;
     * only then come the existence, login and ownership checks.
     */
    method UpdateUrl(id: string, newLongURL: string) returns (reply: Reply)
      requires Valid()
      modifies this
      ensures Valid()
      ensures users == old(users) && session == old(session)
      ensures old(Lookup(id)).Absent? ==>
              reply == ServerError && urlDatabase == old(urlDatabase) && inheritedLongURL == old(inheritedLongURL)
      ensures old(Lookup(id)).Stored? ==>
              && urlDatabase == old(urlDatabase).Put(id, old(urlDatabase.entries[id]).(longURL := newLongURL))
              && inheritedLongURL == old(inheritedLongURL)
      ensures old(Lookup(id)).Inherited? ==>
              urlDatabase == old(urlDatabase) && inheritedLongURL == old(inheritedLongURL)[id := newLongURL]
      ensures old(Lookup(id)).InheritedText? ==>
              urlDatabase == old(urlDatabase) && inheritedLongURL == old(inheritedLongURL)
      ensures !old(Lookup(id)).Absent? && !old(Present(id)) ==> reply == Send(UrlDoesNotExist)
      ensures old(Present(id)) && old(SessionUser()).None? ==> reply == Send(MustLoginRegister)
      ensures old(Present(id)) && old(SessionUser()).Some? && !old(OwnedBySession(id)) ==>
              reply == Send(NotAutherized)
      ensures old(Present(id)) && old(SessionUser()).Some? && old(OwnedBySession(id)) ==>
              id in old(urlDatabase.entries) && reply == Redirect("/urls/")
      ensures reply == Send(UrlDoesNotExist) ==>
              id == LongUrlProp && ProtoKey in old(inheritedLongURL) && old(inheritedLongURL)[ProtoKey] == ""
    {
      var user := SessionUser();
      DefinedButFalsy(id);
      var thrown := AssignLongUrl(id, newLongURL);
      if thrown {
        return ServerError;
      }
      if !Present(id) {
        return Send(UrlDoesNotExist);
      }
      if user.None? {
        return Send(MustLoginRegister);
      }
      if !OwnedBySession(id) {
        return Send(NotAutherized);
      }
      OwnedIsStored(id);
      reply := Redirect("/urls/");
    }

    /**
     * POST /urls/:id with the record's presence among the table's own keys,
     * login and ownership checked before the write: only the owner's request
     * changes the destination, and nothing is ever written on Object.prototype.
     */
    method UpdateUrlChecked(id: string, newLongURL: string) returns (reply: Reply)
      requires Valid()
      modifies this
      ensures Valid()
      ensures users == old(users) && session == old(session) && inheritedLongURL == old(inheritedLongURL)
      ensures id !in old(urlDatabase.entries) ==> reply == Send(UrlDoesNotExist)
      ensures id in old(urlDatabase.entries) && old(SessionUser()).None? ==> reply == Send(MustLoginRegister)
      ensures id in old(urlDatabase.entries) && old(SessionUser()).Some? && !old(OwnedBySession(id)) ==>
              reply == Send(NotAutherized)
      ensures reply != Redirect("/urls/") ==> urlDatabase == old(urlDatabase)
      ensures reply == Redirect("/urls/") <==>
              id in old(urlDatabase.entries) && old(SessionUser()).Some? && old(OwnedBySession(id))
      ensures reply == Redirect("/urls/") ==>
              urlDatabase == old(urlDatabase).Put(id, old(urlDatabase.entries[id]).(longURL := newLongURL))
    {
      var user := SessionUser();
      if id !in urlDatabase.entries {
        return Send(UrlDoesNotExist);
      }
      if user.None? {
        return Send(MustLoginRegister);
      }
      if !OwnedBySession(id) {
        return Send(NotAutherized);
      }
      SetDestination(id, newLongURL);
      reply := Redirect("/urls/");
    }

    /**
     * POST /login: an unknown address or a wrong password is 403 with the
     * session kept; otherwise the session is bound to that user's id.
     */
    method Login(email: string, password: string) returns (reply: Reply)
      requires Valid()
      modifies this
      ensures Valid()
      ensures urlDatabase == old(urlDatabase) && users == old(users) && inheritedLongURL == old(inheritedLongURL)
      ensures (forall k :: k in users.entries ==> users.entries[k].email != email) ==>
              reply == SendStatus(403, EmailNotFound) && session == old(session)
      ensures forall k :: k in users.entries && users.entries[k].email == email ==>
              if passwordMatches(password, users.entries[k].password)
              then reply == Redirect("/urls") && session == Some(k)
              else reply == SendStatus(403, IncorrectPassword) && session == old(session)
    {
      var user := GetUserByEmail(email, users);
      FirstWithEmailInTable(email, users);
      forall k | k in users.entries && users.entries[k].email == email
        ensures user == Some(users.entries[k])
      {
        FirstWithEmailUnique(email, users, k);
      }
      if user.None? {
        return SendStatus(403, EmailNotFound);
      }
      if !passwordMatches(password, user.value.password) {
        return SendStatus(403, IncorrectPassword);
      }
      session := Some(user.value.id);
      reply := Redirect("/urls");
    }

    /** POST /logout: the session is cleared. */
    method Logout() returns (reply: Reply)
      requires Valid()
      modifies this
      ensures Valid()
      ensures urlDatabase == old(urlDatabase) && users == old(users) && inheritedLongURL == old(inheritedLongURL)
      ensures session == None && SessionUser().None?
      ensures reply == Redirect("/login")
    {
      session := None;
      reply := Redirect("/login");
    }

    /**
     * `users[id] = {id, email, password}` followed by
     * `req.session.user_id = id`, for an address no stored user has.
     */
    method SignIn(user: User)
      requires Valid()
      requires IsPlainKey(user.id) && user.id != Undefined
      requires forall k :: k in users.entries ==> users.entries[k].email != user.email
      modifies this
      ensures Valid()
      ensures urlDatabase == old(urlDatabase) && inheritedLongURL == old(inheritedLongURL)
      ensures users == old(users).Put(user.id, user) && session == Some(user.id)
    {
      UsersConsistentPut(users, user);
      UrlsConsistentGrow(urlDatabase, users.entries, user.id, user);
      users := users.Put(user.id, user);
      session := Some(user.id);
    }

    /**
     * POST /register: an empty field or an address already in use is 400
     * with nothing changed; otherwise the user is stored under the generated
     * `id` with the password's digest, and the session is bound to it.
     */
    method Register(email: string, password: string, id: string) returns (reply: Reply)
      requires Valid()
      requires IsGeneratedId(id)
      modifies this
      ensures Valid()
      ensures urlDatabase == old(urlDatabase) && inheritedLongURL == old(inheritedLongURL)
      ensures email == "" || password == "" ==>
              reply == SendStatus(400, MissingCredentials) && users == old(users) && session == old(session)
      ensures email != "" && password != "" && (exists k :: k in old(users.entries) && old(users.entries[k].email) == email) ==>
              reply == SendStatus(400, EmailTaken) && users == old(users) && session == old(session)
      ensures email != "" && password != "" && (forall k :: k in old(users.entries) ==> old(users.entries[k].email) != email) ==>
              && reply == Redirect("/urls")
              && users == old(users).Put(id, User(id, email, hashPassword(password)))
              && session == Some(id)
    {
      if email == "" || password == "" {
        return SendStatus(400, MissingCredentials);
      }
      var existing := GetUserByEmail(email, users);
      FirstWithEmailInTable(email, users);
      if existing.Some? {
        return SendStatus(400, EmailTaken);
      }
      GeneratedIdIsPlain(id);
      SignIn(User(id, email, hashPassword(password)));
      reply := Redirect("/urls");
    }
  }
}

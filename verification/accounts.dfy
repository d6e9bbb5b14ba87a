/**
 * Member registration and login: the `deposits` collection maps a member
 * id to its document, which holds the SHA-256 hash of the password; the
 * session is the member id saved on the device. The hash is an arbitrary
 * function supplied from outside.
 */
module Accounts {
  import opened Options

  /** A member document as the login screen sees it; `password` may be missing. */
  datatype UserDoc = UserDoc(password: Option<string>, createdAt: int)

  /** `verifyPassword`: the hash of the input equals the stored hash. */
  function VerifyPassword(hash: string -> string, input: string, stored: Option<string>): (r: bool)
    ensures r <==> stored == Some(hash(input))
  {
    stored.Some? && hash(input) == stored.value
  }

  datatype RegisterOutcome = AlreadyRegistered | Registered
  datatype LoginOutcome = LoggedIn | WrongPassword | UnknownUser

  class AccountStore {
    const hash: string -> string
    var users: map<string, UserDoc>
    var session: Option<string>

    constructor (hash: string -> string, users: map<string, UserDoc>)
      ensures this.hash == hash && this.users == users && session == None
    {
      this.hash := hash;
      this.users := users;
      session := None;
    }

    /**
     * `registerUser`: an existing member id changes nothing and saves no
     * session; a new one gets a document with the password's hash, and
     * the session becomes that member.
     */
    method RegisterUser(username: string, password: string, now: int) returns (outcome: RegisterOutcome)
      modifies this
      ensures outcome == AlreadyRegistered <==> username in old(users)
      ensures outcome == AlreadyRegistered ==> users == old(users) && session == old(session)
      ensures outcome == Registered ==>
        users == old(users)[username := UserDoc(Some(hash(password)), now)] && session == Some(username)
    {
      if username in users {
        return AlreadyRegistered;
      }
      users := users[username := UserDoc(Some(hash(password)), now)];
      session := Some(username);
      outcome := Registered;
    }

    /**
     * `loginUser`: the session is saved only when the document exists and
     * the password verifies; a wrong password or an unknown member leaves
     * it as it was. Login never changes the documents.
     */
    method LoginUser(username: string, password: string) returns (outcome: LoginOutcome)
      modifies this
      ensures users == old(users)
      ensures outcome == UnknownUser <==> username !in users
      ensures outcome == LoggedIn <==> username in users && VerifyPassword(hash, password, users[username].password)
      ensures outcome == LoggedIn ==> session == Some(username)
      ensures outcome != LoggedIn ==> session == old(session)
    {
      if username !in users {
        return UnknownUser;
      }
      if VerifyPassword(hash, password, users[username].password) {
        session := Some(username);
        return LoggedIn;
      }
      outcome := WrongPassword;
    }
  }

  /** Registering a new member and then logging in with the same password succeeds. */
  method RegisterThenLogin(store: AccountStore, username: string, password: string, now: int)
    returns (registered: RegisterOutcome, login: LoginOutcome)
    requires username !in store.users
    modifies store
    ensures registered == Registered && login == LoggedIn
    ensures store.session == Some(username)
  {
    registered := store.RegisterUser(username, password, now);
    login := store.LoginUser(username, password);
  }
}

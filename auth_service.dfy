/** The mock authentication service: one hard-coded credential pair and a
    session token kept under the browser store's "token" key. */
module Auth {
  import opened Options

  const AdminEmail: string := "admin@admin.com"
  const AdminPassword: string := "password"
  const FakeToken: string := "fake-jwt-token"

  datatype UserInfo = UserInfo(name: string, email: string)

  /** What a successful `login` resolves to. */
  datatype LoginResult = LoginResult(token: string, user: UserInfo)

  /** The record `login` returns on success, with the user's e-mail field
      exactly as the service spells it. */
  const AdminResult: LoginResult := LoginResult(FakeToken, UserInfo("Admin User", "  admin"))

  /** The value of the "token" entry of the browser store (None: no entry). */
  class SessionStore {
    var token: Option<string>

    /** The store as the browser hands it over, possibly holding a token
        from an earlier visit. */
    constructor (stored: Option<string>)
      ensures token == stored
    {
      token := stored;
    }

    /** `!!localStorage.getItem('token')`: a missing entry and an empty
        string both read as logged out. */
    predicate IsAuthenticated()
      reads this
      ensures IsAuthenticated() <==> token != None && token != Some("")
    {
      token.Some? && token.value != ""
    }

    /** Succeeds exactly for the one credential pair, storing the token;
        any other pair resolves to null and leaves the store alone. */
    method Login(email: string, password: string) returns (result: Option<LoginResult>)
      modifies this
      ensures result.Some? <==> email == AdminEmail && password == AdminPassword
      ensures result.Some? ==> result.value == AdminResult && token == Some(FakeToken)
      ensures result.Some? ==> IsAuthenticated()
      ensures result.None? ==> token == old(token)
    {
      if email == AdminEmail && password == AdminPassword {
        token := Some(FakeToken);
        return Some(AdminResult);
      }
      result := None;
    }

    /** Removes the token entry, whether or not it was there. */
    method Logout()
      modifies this
      ensures token == None
      ensures !IsAuthenticated()
    {
      token := None;
    }
  }

  /** A second logout finds the entry gone and leaves it gone. */
  method LogoutTwice(store: SessionStore) returns (afterFirst: Option<string>)
    modifies store
    ensures afterFirst == None
    ensures store.token == afterFirst
  {
    store.Logout();
    afterFirst := store.token;
    store.Logout();
  }
}

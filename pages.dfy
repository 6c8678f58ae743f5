/** The navigation that follows login and logout: the login page's submit
    handler and the header's logout button. The router becomes the returned
    path; the error toast becomes `None`. */
module Pages {
  import opened Options
  import Auth

  const HomePath: string := "/home"
  const LoginPath: string := "/login"

  /** The login form: a resolved login pushes the dashboard, a null result
      shows "Invalid email or password" and stays on the page. */
  method SubmitLogin(store: Auth.SessionStore, email: string, password: string) returns (navigation: Option<string>)
    modifies store
    ensures navigation == Some(HomePath) <==> email == Auth.AdminEmail && password == Auth.AdminPassword
    ensures navigation == Some(HomePath) || navigation == None
    ensures navigation.Some? ==> store.token == Some(Auth.FakeToken) && store.IsAuthenticated()
    ensures navigation.None? ==> store.token == old(store.token)
  {
    var result := store.Login(email, password);
    if result.Some? {
      navigation := Some(HomePath);
    } else {
      navigation := None;
    }
  }

  /** The header's logout button: clear the session, then go to the login page. */
  method HeaderLogout(store: Auth.SessionStore) returns (navigation: string)
    modifies store
    ensures navigation == LoginPath
    ensures store.token == None && !store.IsAuthenticated()
  {
    store.Logout();
    navigation := LoginPath;
  }
}

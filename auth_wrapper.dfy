/** The route guard that wraps protected pages: a spinner until one session
    check has run, then either a redirect to the login page or the wrapped
    children. The asynchronous effect is one sequential step. */
module AuthGate {
  import opened Options
  import Auth
  import Pages

  /** What asking the session service gave: an answer, or an exception. */
  datatype CheckResult = Answered(authenticated: bool) | Threw

  class AuthGuard {
    var isLoading: bool
    var isAuthenticated: bool

    /** The wrapper renders its children only once loading is over and the
        session was found; the spinner otherwise. */
    predicate RendersChildren()
      reads this
      ensures RendersChildren() <==> !(isLoading || !isAuthenticated)
    {
      !isLoading && isAuthenticated
    }

    /** Mounting starts in the loading state, showing the spinner. */
    constructor ()
      ensures isLoading && !isAuthenticated
      ensures !RendersChildren()
    {
      isLoading := true;
      isAuthenticated := false;
    }

    /** One run of `checkAuthentication` with the given session answer. A
        negative answer and an exception both replace the route with the
        login page and leave `isAuthenticated` as it was; a positive answer
        sets it and issues no navigation. Loading ends on every branch. */
    method CheckAuthentication(check: CheckResult) returns (redirect: Option<string>)
      modifies this
      ensures !isLoading
      ensures check == Answered(true) ==> isAuthenticated && redirect == None
      ensures check != Answered(true) ==> redirect == Some(Pages.LoginPath) && isAuthenticated == old(isAuthenticated)
      ensures !old(isAuthenticated) ==> (redirect.Some? <==> !RendersChildren())
      ensures RendersChildren() <==> check == Answered(true) || old(isAuthenticated)
    {
      match check {
        case Answered(authenticated) =>
          if !authenticated {
            redirect := Some(Pages.LoginPath);
          } else {
            isAuthenticated := true;
            redirect := None;
          }
        case Threw =>
          redirect := Some(Pages.LoginPath);
      }
      isLoading := false;
    }

    /** The check against the session store itself, which does not throw. */
    method CheckSession(store: Auth.SessionStore) returns (redirect: Option<string>)
      modifies this
      ensures !isLoading
      ensures redirect.None? <==> store.IsAuthenticated()
      ensures redirect.Some? ==> redirect.value == Pages.LoginPath
      ensures store.IsAuthenticated() ==> RendersChildren()
      ensures isAuthenticated == (old(isAuthenticated) || store.IsAuthenticated())
      ensures !old(isAuthenticated) ==> (RendersChildren() <==> store.IsAuthenticated())
    {
      redirect := CheckAuthentication(Answered(store.IsAuthenticated()));
    }
  }

  /** A fresh guard over a logged-out store redirects and never shows the
      children; over a logged-in store it shows them without navigating. */
  method GuardScenario(stored: Option<string>)
  {
    var store := new Auth.SessionStore(stored);
    var guard := new AuthGuard();
    var redirect := guard.CheckSession(store);
    if stored == None || stored == Some("") {
      assert redirect == Some(Pages.LoginPath) && !guard.RendersChildren();
    } else {
      assert redirect == None && guard.RendersChildren();
    }
  }
}

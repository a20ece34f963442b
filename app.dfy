/**
 * The application shell: the route guard that gates the query page on the
 * session reported by the authentication SDK, the light/dark colour-scheme
 * toggle, and the route table.
 */
module App {
  import opened Wrappers

  // ---------------------------------------------------------------------------
  // Route guard (written `ReguireAuth` in the application)
  // ---------------------------------------------------------------------------

  /** The signed-in user; only its presence matters here. */
  datatype User = User(uid: string)

  datatype AuthError = AuthError(message: string)

  /** The triple the session hook yields: user, loading flag, error. */
  datatype AuthState = AuthState(user: Option<User>, loading: bool, error: Option<AuthError>)

  /** What the guard renders in place of its children. */
  datatype Guarded<C> =
    | Loader
    | Alert(title: string, color: string, message: string)
    | Children(content: C)
    | Navigate(to: string)

  const SignInPath := "/signin"

  /** Loading wins over an error, an error wins over a user, and no user means a redirect. */
  function RequireAuth<C>(auth: AuthState, children: C): (r: Guarded<C>)
    ensures r.Loader? <==> auth.loading
    ensures r.Alert? ==> auth.error.Some? && r.message == auth.error.value.message
    ensures r.Children? ==> auth.user.Some? && r.content == children
    ensures r.Navigate? ==> auth.user.None? && r.to == "/signin"
  {
    if auth.loading then Loader
    else if auth.error.Some? then Alert("Attention!", "red", auth.error.value.message)
    else if auth.user.Some? then Children(children)
    else Navigate(SignInPath)
  }

  /** While loading, the guard shows the loader whatever the error and user. */
  lemma GuardWhileLoading<C>(user: Option<User>, error: Option<AuthError>, children: C)
    ensures RequireAuth(AuthState(user, true, error), children) == Loader
  {
  }

  /** Once loaded, an error is shown with its own message even when a user is present. */
  lemma GuardOnError<C>(user: Option<User>, e: AuthError, children: C)
    ensures RequireAuth(AuthState(user, false, Some(e)), children).Alert?
    ensures RequireAuth(AuthState(user, false, Some(e)), children).message == e.message
  {
  }

  /** Loaded, no error and a user: exactly the wrapped children. */
  lemma GuardWithUser<C>(u: User, children: C)
    ensures RequireAuth(AuthState(Some(u), false, None), children) == Children(children)
  {
  }

  /** Loaded, no error and no user: a redirect to the sign-in page. */
  lemma GuardWithoutUser<C>(children: C)
    ensures RequireAuth(AuthState(None, false, None), children) == Navigate("/signin")
  {
  }

  /** Each outcome happens exactly under its own condition, so the four are exhaustive and disjoint. */
  lemma GuardClassification<C>(auth: AuthState, children: C)
    ensures RequireAuth(auth, children).Loader? <==> auth.loading
    ensures RequireAuth(auth, children).Alert? <==> !auth.loading && auth.error.Some?
    ensures RequireAuth(auth, children).Children? <==> !auth.loading && auth.error.None? && auth.user.Some?
    ensures RequireAuth(auth, children).Navigate? <==> !auth.loading && auth.error.None? && auth.user.None?
  {
  }

  /** The children are shown only to a signed-in user, and then unchanged. */
  lemma ChildrenOnlyForUser<C>(auth: AuthState, children: C)
    requires RequireAuth(auth, children).Children?
    ensures auth.user.Some? && RequireAuth(auth, children).content == children
  {
  }

  // ---------------------------------------------------------------------------
  // Colour scheme
  // ---------------------------------------------------------------------------

  datatype ColorScheme = Light | Dark

  const InitialScheme := Light

  /** `value || (current === 'dark' ? 'light' : 'dark')`; both scheme names are truthy strings. */
  function NextScheme(current: ColorScheme, value: Option<ColorScheme>): (r: ColorScheme)
    ensures value.Some? ==> r == value.value
    ensures value.None? ==> r != current
  {
    match value
    case Some(v) => v
    case None => if current == Dark then Light else Dark
  }

  /** An explicit value is taken as is, whatever the current scheme. */
  lemma ExplicitSchemeWins(current: ColorScheme, v: ColorScheme)
    ensures NextScheme(current, Some(v)) == v
  {
  }

  /** Without a value the scheme always changes, and toggling twice restores it. */
  lemma ToggleFlips(current: ColorScheme)
    ensures NextScheme(current, None) != current
    ensures NextScheme(NextScheme(current, None), None) == current
  {
  }

  /** The `colorScheme` state cell and its setter. */
  class ColorSchemeState {
    var colorScheme: ColorScheme

    constructor ()
      ensures colorScheme == Light
    {
      colorScheme := InitialScheme;
    }

    method ToggleColorScheme(value: Option<ColorScheme>)
      modifies this
      ensures colorScheme == NextScheme(old(colorScheme), value)
    {
      colorScheme := if value.Some? then value.value
                     else if colorScheme == Dark then Light else Dark;
    }
  }

  // ---------------------------------------------------------------------------
  // Route table
  // ---------------------------------------------------------------------------

  datatype Page = Welcome | SignIn | SignUpPage | Graphi | NotFound

  /** A route's element: a page, or a page wrapped in the guard. */
  datatype Element = Plain(page: Page) | Guard(guarded: Page)

  /** The matched route: whether it renders inside the shared layout, and its element. */
  datatype RouteMatch = RouteMatch(inLayout: bool, element: Element)

  /** The guard wraps only the IDE page; only the catch-all route sits outside the layout. */
  function Route(path: string): (r: RouteMatch)
    ensures r.element.Guard? ==> r.element.guarded == Graphi && r.inLayout
    ensures !r.inLayout <==> r.element == Plain(NotFound)
  {
    if path == "/" then RouteMatch(true, Plain(Welcome))
    else if path == SignInPath then RouteMatch(true, Plain(SignIn))
    else if path == "/signup" then RouteMatch(true, Plain(SignUpPage))
    else if path == "/graphi" then RouteMatch(true, Guard(Graphi))
    else RouteMatch(false, Plain(NotFound))
  }

  /** The page shown at `path` for the given session; the session changes it only at `/graphi`. */
  function Render(path: string, auth: AuthState): (r: Guarded<Page>)
    ensures !r.Children? ==> path == "/graphi"
    ensures r.Navigate? ==> r.to == "/signin"
    ensures r.Children? && path == "/graphi" ==> auth.user.Some?
  {
    match Route(path).element
    case Plain(p) => Children(p)
    case Guard(p) => RequireAuth(auth, p)
  }

  /** Only `/graphi` is wrapped in the guard. */
  lemma OnlyGraphiGuarded(path: string)
    ensures Route(path).element.Guard? <==> path == "/graphi"
  {
  }

  /** Unguarded routes render the same page whatever the session. */
  lemma UnguardedIgnoresSession(path: string, a1: AuthState, a2: AuthState)
    requires path != "/graphi"
    ensures Render(path, a1) == Render(path, a2)
    ensures Render(path, a1).Children?
  {
  }

  /** Any path outside the table renders the not-found page, outside the layout. */
  lemma UnknownPathNotFound(path: string)
    requires path !in {"/", "/signin", "/signup", "/graphi"}
    ensures Route(path) == RouteMatch(false, Plain(NotFound))
  {
  }

  /** A visitor without a session who opens `/graphi` is sent to `/signin`; a signed-in one sees the page. */
  lemma GraphiAccess(auth: AuthState)
    requires !auth.loading && auth.error.None?
    ensures auth.user.None? ==> Render("/graphi", auth) == Navigate("/signin")
    ensures auth.user.Some? ==> Render("/graphi", auth) == Children(Graphi)
  {
  }
}

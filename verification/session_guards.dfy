/**
 * The session guards: whether a session is signed in, the decorator that
 * guards the profile views, and the decorator that admits the steps of a
 * creation wizard only while its session entry is set.
 *
 * A view is a function of its arguments; the outcome of a guarded call is
 * the view's result, an abort with a status code, or a redirect with a
 * flashed message.
 */
module SessionGuards {
  import opened PyValues

  /** The Flask session, a dictionary. */
  type Session = map<string, Value>

  datatype Outcome<T> = Ran(result: T) | Aborted(status: int) | Redirected(endpoint: string, message: string)

  /** `is_authenticated`: a session is signed in when its `user` entry is present and not `None`. */
  predicate IsAuthenticated(s: Session) {
    "user" in s && s["user"] != PyNone
  }

  /**
   * `login_required` as written: the guard is inverted, so a signed-in
   * session is refused with 401 and an anonymous one reaches the view.
   */
  function LoginRequired<A, T>(s: Session, view: A -> T, args: A): (r: Outcome<T>)
    ensures r.Ran? <==> !IsAuthenticated(s)
    ensures r.Ran? ==> r.result == view(args)
    ensures !r.Ran? ==> r == Aborted(401)
  {
    if IsAuthenticated(s) then Aborted(401) else Ran(view(args))
  }

  /** A signed-in user asking for a guarded view is refused. */
  lemma SignedInUserRefused<A, T>(view: A -> T, args: A)
    ensures LoginRequired(map["user" := Int(1)], view, args) == Aborted(401)
    ensures LoginRequired(map[], view, args) == Ran(view(args))
  {
  }

  /** The guard as evidently intended: only a signed-in session reaches the view. */
  function LoginRequiredIntended<A, T>(s: Session, view: A -> T, args: A): (r: Outcome<T>)
    ensures r.Ran? <==> IsAuthenticated(s)
    ensures r.Ran? ==> r.result == view(args)
    ensures !r.Ran? ==> r == Aborted(401)
  {
    if !IsAuthenticated(s) then Aborted(401) else Ran(view(args))
  }

  /** The intended guard admits exactly the sessions the written one refuses. */
  lemma GuardsComplementary<A, T>(s: Session, view: A -> T, args: A)
    ensures LoginRequiredIntended(s, view, args).Ran? <==> !LoginRequired(s, view, args).Ran?
  {
  }

  /** Signing in or out is only about the `user` entry: any other entry leaves the verdict alone. */
  lemma AuthenticationOnlyReadsUser(s: Session, k: string, v: Value)
    requires k != "user"
    ensures IsAuthenticated(s[k := v]) == IsAuthenticated(s)
  {
  }

  const CreationMessage := "Oops. Solo se puede acceder creando una entidad"
  const Home := "index_bp.home"

  /**
   * `check_creation_in_process(name)`: the view runs with its arguments
   * when the session's entry under `name` (the name itself, verbatim) is
   * truthy; otherwise the user is sent home with a message.
   */
  function CheckCreationInProcess<A, T>(name: string, s: Session, view: A -> T, args: A): (r: Outcome<T>)
    ensures r.Ran? <==> Truthy(Get(s, name))
    ensures r.Ran? ==> r.result == view(args)
    ensures !r.Ran? ==> r == Redirected(Home, CreationMessage)
  {
    if !Truthy(Get(s, name)) then Redirected(Home, CreationMessage) else Ran(view(args))
  }

  /**
   * Starting a creation (setting the entry to a truthy value) opens the
   * guarded steps, clearing it closes them, and the other entries of the
   * session play no part.
   */
  lemma CreationEntryDecides<A, T>(name: string, s: Session, v: Value, k: string, w: Value, view: A -> T, args: A)
    requires k != name
    ensures CheckCreationInProcess(name, s[name := v], view, args).Ran? <==> Truthy(v)
    ensures CheckCreationInProcess(name, s[k := w], view, args) == CheckCreationInProcess(name, s, view, args)
  {
  }
}

/**
 * The login page's decisions: the redirect effect that sends an already
 * signed-in visitor to their dashboard, and the submit handler that looks the
 * credentials up and then updates the session, shows a toast and navigates.
 * Everything the page sends to the store, the toaster and the router is
 * appended to a command log.
 */
module Login {
  import opened Wrappers
  import opened Routes
  import opened Validation
  import opened Session

  datatype Severity = Success | Error

  /** A command the page issues to one of its collaborators. */
  datatype Command =
    | SetUser(user: UserIdentity)                                  // dispatched to the store
    | Toast(severity: Severity, message: string, autoCloseMs: nat)  // shown by the toaster
    | Navigate(path: string, replace: bool)                        // sent to the router

  /** A record of the user list, as the credential lookup returns it. */
  datatype Record = Record(role: string, email: string, name: string, route: string, password: string)

  /** What the credential lookup does: returns a record, returns nothing, or throws. */
  datatype LookupOutcome = Found(record: Record) | NotFound | Fault

  const InvalidCredentialsMessage: string := "Incorrect email or password. Please try again."
  const LoginFaultMessage: string := "An error occurred during login. Please try again."
  const SuccessToastMs: nat := 3000
  const ErrorToastMs: nat := 5000

  /** The identity the session keeps from a record. */
  function IdentityOf(rec: Record): UserIdentity
  {
    UserIdentity(rec.role, rec.email, rec.name)
  }

  /** The text of the success toast, `Welcome, {name}!`. */
  function WelcomeMessage(name: string): string
  {
    "Welcome, " + name + "!"
  }

  ghost predicate IsInfix(part: string, whole: string)
  {
    exists i :: 0 <= i <= |whole| && part <= whole[i..]
  }

  lemma WelcomeMessageNamesUser(name: string)
    ensures IsInfix(name, WelcomeMessage(name))
  {
    var m := WelcomeMessage(name);
    assert name <= m[9..];
  }

  /** The collaborator a command goes to. */
  datatype Kind = StoreUpdate | Notification | Navigation

  function KindOf(c: Command): Kind
  {
    match c
    case SetUser(_) => StoreUpdate
    case Toast(_, _, _) => Notification
    case Navigate(_, _) => Navigation
  }

  /** How many commands of kind `k` a log holds. */
  function Count(cmds: seq<Command>, k: Kind): nat
  {
    if cmds == [] then 0 else (if KindOf(cmds[0]) == k then 1 else 0) + Count(cmds[1..], k)
  }

  lemma CountCons(c: Command, rest: seq<Command>, k: Kind)
    ensures Count([c] + rest, k) == (if KindOf(c) == k then 1 else 0) + Count(rest, k)
  {
  }

  /** The redirect effect: one replace-mode navigation, only for an authenticated session with a user. */
  function RedirectCommands(isAuthenticated: bool, user: Option<UserIdentity>): (cmds: seq<Command>)
    ensures cmds != [] <==> isAuthenticated && user.Some?
    ensures |cmds| <= 1 && Count(cmds, Navigation) == |cmds|
    ensures cmds != [] ==> cmds[0].Navigate? && cmds[0].replace && cmds[0].path == RouteForRole(user.value.role)
  {
    if isAuthenticated && user.Some? then [Navigate(RouteForRole(user.value.role), true)] else []
  }

  /** What the submit handler issues for each lookup outcome. */
  function SubmitCommands(outcome: LookupOutcome): (cmds: seq<Command>)
    ensures Count(cmds, Notification) == 1
    ensures Count(cmds, Navigation) == (if outcome.Found? then 1 else 0)
    ensures Count(cmds, StoreUpdate) == (if outcome.Found? then 1 else 0)
  {
    match outcome
    case Found(rec) =>
      var nav := [Navigate(DashboardPath(rec.route), false)];
      var toast := Toast(Success, WelcomeMessage(rec.name), SuccessToastMs);
      var store := SetUser(IdentityOf(rec));
      CountCons(toast, nav, Notification);
      CountCons(toast, nav, Navigation);
      CountCons(toast, nav, StoreUpdate);
      CountCons(store, [toast] + nav, Notification);
      CountCons(store, [toast] + nav, Navigation);
      CountCons(store, [toast] + nav, StoreUpdate);
      [store] + ([toast] + nav)
    case NotFound => [Toast(Error, InvalidCredentialsMessage, ErrorToastMs)]
    case Fault => [Toast(Error, LoginFaultMessage, ErrorToastMs)]
  }

  /**
   * On a match: first the store update with the record's role, email and name,
   * then a success toast naming the user, then a push navigation to the
   * dashboard of the record's own route field.
   */
  lemma MatchedSubmitEffects(rec: Record)
    ensures var cmds := SubmitCommands(Found(rec));
      && |cmds| == 3
      && cmds[0] == SetUser(UserIdentity(rec.role, rec.email, rec.name))
      && cmds[1].Toast? && cmds[1].severity == Success && cmds[1].autoCloseMs == 3000
      && IsInfix(rec.name, cmds[1].message)
      && cmds[2].Navigate? && !cmds[2].replace && cmds[2].path == "/" + rec.route + "/dashboard"
      && SegmentOf(cmds[2].path) == Some(rec.route)
  {
    WelcomeMessageNamesUser(rec.name);
  }

  /** A record's route and password play no part in the identity the session keeps. */
  lemma StoredIdentityIgnoresRouteAndPassword(a: Record, b: Record)
    requires a.role == b.role && a.email == b.email && a.name == b.name
    ensures SubmitCommands(Found(a))[0] == SubmitCommands(Found(b))[0]
  {
  }

  /** Without a match: exactly one error toast with the outcome's message, and nothing else. */
  lemma FailedSubmitEffects(outcome: LookupOutcome)
    requires !outcome.Found?
    ensures var cmds := SubmitCommands(outcome);
      && cmds == [Toast(Error, cmds[0].message, 5000)]
      && (outcome.NotFound? ==> cmds[0].message == "Incorrect email or password. Please try again.")
      && (outcome.Fault? ==> cmds[0].message == "An error occurred during login. Please try again.")
  {
  }

  /**
   * The submit handler navigates by the record's route field, the redirect
   * effect by the role table; they send the user to the same dashboard exactly
   * when the record's route is its role's segment.
   */
  lemma SubmitAndRedirectAgreeIff(rec: Record)
    ensures SubmitCommands(Found(rec))[2].path == RedirectCommands(true, Some(IdentityOf(rec)))[0].path
        <==> rec.route == RoleSegment(rec.role)
  {
    DashboardPathInjective(rec.route, RoleSegment(rec.role));
  }

  /** A record whose route differs from its role's segment is sent to two different dashboards. */
  lemma DivergentRecordExample()
    ensures var rec := Record("user", "u@example.com", "U", "admin", "secret");
      && SubmitCommands(Found(rec))[2].path == "/admin/dashboard"
      && RedirectCommands(true, Some(IdentityOf(rec)))[0].path == "/user/dashboard"
  {
  }

  /** The page: the log of commands it has issued so far. */
  class LoginPage {
    var issued: seq<Command>

    constructor ()
      ensures issued == []
    {
      issued := [];
    }

    /** The effect that runs on mount and whenever the session's flag or user changes. */
    method RunRedirectEffect(auth: AuthState)
      modifies this
      ensures issued == old(issued) + RedirectCommands(auth.isAuthenticated, auth.user)
    {
      if auth.isAuthenticated && auth.user.Some? {
        var rolePath := RoleSegment(auth.user.value.role);
        issued := issued + [Navigate(DashboardPath(rolePath), true)];
      }
    }

    /** The submit handler, given the validated field values and the credential lookup. */
    method OnSubmit(auth: AuthState, email: string, password: string,
                    authenticate: (string, string) -> LookupOutcome)
      modifies this, auth
      ensures issued == old(issued) + SubmitCommands(authenticate(email, password))
      ensures authenticate(email, password).Found? ==>
        && auth.isAuthenticated
        && auth.user == Some(IdentityOf(authenticate(email, password).record))
      ensures !authenticate(email, password).Found? ==>
        auth.isAuthenticated == old(auth.isAuthenticated) && auth.user == old(auth.user)
      ensures auth.loading == old(auth.loading)
    {
      var outcome := authenticate(email, password);
      match outcome {
        case Found(rec) =>
          var identity := UserIdentity(rec.role, rec.email, rec.name);
          auth.SetUser(identity);
          issued := issued + [SetUser(identity)];
          issued := issued + [Toast(Success, WelcomeMessage(rec.name), SuccessToastMs)];
          issued := issued + [Navigate(DashboardPath(rec.route), false)];
        case NotFound =>
          issued := issued + [Toast(Error, InvalidCredentialsMessage, ErrorToastMs)];
        case Fault =>
          issued := issued + [Toast(Error, LoginFaultMessage, ErrorToastMs)];
      }
    }

    /** The form's submit: validate both fields, and call the handler only if neither has a message. */
    method HandleSubmit(auth: AuthState, email: string, password: string,
                        authenticate: (string, string) -> LookupOutcome)
      returns (errs: FieldErrors)
      modifies this, auth
      ensures errs == Validate(email, password)
      ensures SubmissionAllowed(errs) ==>
        issued == old(issued) + SubmitCommands(authenticate(email, password))
      ensures !SubmissionAllowed(errs) ==>
        issued == old(issued) && auth.isAuthenticated == old(auth.isAuthenticated) && auth.user == old(auth.user)
      ensures SubmissionAllowed(errs) && authenticate(email, password).Found? ==>
        auth.isAuthenticated && auth.user == Some(IdentityOf(authenticate(email, password).record))
      ensures SubmissionAllowed(errs) && !authenticate(email, password).Found? ==>
        auth.isAuthenticated == old(auth.isAuthenticated) && auth.user == old(auth.user)
      ensures auth.loading == old(auth.loading)
    {
      errs := Validate(email, password);
      if SubmissionAllowed(errs) {
        OnSubmit(auth, email, password, authenticate);
      }
    }
  }
}

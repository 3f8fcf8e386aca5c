/**
 * The account side of a login: the three account partitions (company, admin,
 * driver) consulted in a fixed order by `attempt_login`, the session record a
 * successful login produces, and the role-to-screen routing shared by
 * `handle_successful_login` and `on_pre_enter`.
 *
 * The three `verify_*_login` database calls are not part of this model; they
 * are one oracle, `Verifier`, that answers per partition with a record, no
 * record, or a raised exception.
 */
module Accounts {
  import opened Wrappers

  datatype Role = Company | Admin | Driver

  /** An account record as a verifier returns it. */
  datatype Account = Account(id: int, name: string, email: string, companyId: Option<int>)

  /** What one `verify_*_login(email, password)` call does. */
  datatype Verdict = Match(account: Account) | NoMatch | Fault

  /** The three verifiers, keyed by the partition they search. */
  type Verifier = (Role, string, string) -> Verdict

  /** The order in which `attempt_login` consults the partitions. */
  const Partitions: seq<Role> := [Company, Admin, Driver]

  datatype Access = Granted(role: Role, account: Account) | Denied

  /** What `attempt_login` returns, with the partitions it consulted, in order. */
  datatype Attempt = Attempt(access: Access, asked: seq<Role>)

  /** `attempt_login`: company, then admin, then driver; the first record
      found decides the role. An exception from any verifier is caught and
      reported like "no account", and stops the search. */
  function AttemptLogin(verify: Verifier, email: string, password: string): (r: Attempt)
    ensures 1 <= |r.asked| <= |Partitions| && r.asked == Partitions[..|r.asked|]
    ensures forall i :: 0 <= i < |r.asked| - 1 ==> verify(r.asked[i], email, password) == NoMatch
    ensures |r.asked| < |Partitions| ==> verify(r.asked[|r.asked| - 1], email, password) != NoMatch
    ensures r.access.Granted? <==> verify(r.asked[|r.asked| - 1], email, password).Match?
    ensures r.access.Granted? ==>
              r.access.role == r.asked[|r.asked| - 1]
              && verify(r.access.role, email, password) == Match(r.access.account)
  {
    match verify(Company, email, password)
    case Match(a) => Attempt(Granted(Company, a), [Company])
    case Fault => Attempt(Denied, [Company])
    case NoMatch =>
      match verify(Admin, email, password)
      case Match(a) => Attempt(Granted(Admin, a), [Company, Admin])
      case Fault => Attempt(Denied, [Company, Admin])
      case NoMatch =>
        match verify(Driver, email, password)
        case Match(a) => Attempt(Granted(Driver, a), Partitions)
        case _ => Attempt(Denied, Partitions)
  }

  /** Precedence: the first partition, in order, that holds the credentials
      decides the role, whatever the later partitions would have said, and the
      later ones are never asked. */
  lemma FirstMatchWins(verify: Verifier, email: string, password: string, k: nat)
    requires k < |Partitions| && verify(Partitions[k], email, password).Match?
    requires forall j :: 0 <= j < k ==> verify(Partitions[j], email, password) == NoMatch
    ensures AttemptLogin(verify, email, password)
            == Attempt(Granted(Partitions[k], verify(Partitions[k], email, password).account),
                       Partitions[..k + 1])
  {
  }

  /** A raised exception ends the search with no access, even when a later
      partition holds the credentials. */
  lemma FaultStopsSearch(verify: Verifier, email: string, password: string, k: nat)
    requires k < |Partitions| && verify(Partitions[k], email, password) == Fault
    requires forall j :: 0 <= j < k ==> verify(Partitions[j], email, password) == NoMatch
    ensures AttemptLogin(verify, email, password) == Attempt(Denied, Partitions[..k + 1])
  {
  }

  /** The screens a session can be routed to. */
  datatype Screen = DashboardCompany | DashboardAdmin | InitReport

  /** The screen manager's name for each screen. */
  function ScreenName(screen: Screen): string
  {
    match screen
    case DashboardCompany => "dashboard_company"
    case DashboardAdmin => "dashboard_admin"
    case InitReport => "init_report"
  }

  /** The `role` value stored in the session record. */
  function RoleName(role: Role): string
  {
    match role
    case Company => "company"
    case Admin => "admin"
    case Driver => "driver"
  }

  /** Where `handle_successful_login` sends each role: companies and admins to
      their dashboards, drivers to the trip-start screen. */
  function ScreenFor(role: Role): (screen: Screen)
    ensures screen == InitReport <==> role == Driver
  {
    match role
    case Company => DashboardCompany
    case Admin => DashboardAdmin
    case Driver => InitReport
  }

  /** Each role has its own screen. */
  lemma RoutingIsOneToOne(a: Role, b: Role)
    ensures ScreenFor(a) == ScreenFor(b) ==> a == b
    ensures ScreenName(ScreenFor(a)) == ScreenName(ScreenFor(b)) ==> a == b
  {
  }

  /** `on_pre_enter`: with a stored session whose role is one of the three
      names, go straight to that role's screen; otherwise stay. */
  function ResumeScreen(storedRole: Option<string>): (r: Option<Screen>)
    ensures r.Some? <==> exists role :: storedRole == Some(RoleName(role))
    ensures forall role :: storedRole == Some(RoleName(role)) ==> r == Some(ScreenFor(role))
  {
    match storedRole
    case None => None
    case Some(name) =>
      if name == "company" then assert name == RoleName(Company); Some(DashboardCompany)
      else if name == "admin" then assert name == RoleName(Admin); Some(DashboardAdmin)
      else if name == "driver" then assert name == RoleName(Driver); Some(InitReport)
      else None
  }

  /** The session record `handle_successful_login` stores for the app. */
  datatype Session = Session(role: Role, id: int, name: string, email: string, companyId: Option<int>)

  /** The session for a verified account: the account's id, name and e-mail;
      admins and drivers also carry their company id, companies carry none. */
  function SessionFor(role: Role, account: Account): (s: Session)
    ensures s.role == role && s.id == account.id && s.name == account.name && s.email == account.email
    ensures s.companyId == if role == Company then None else account.companyId
  {
    match role
    case Company => Session(Company, account.id, account.name, account.email, None)
    case Admin => Session(Admin, account.id, account.name, account.email, account.companyId)
    case Driver => Session(Driver, account.id, account.name, account.email, account.companyId)
  }

  /** Re-entering the login screen with the stored session leads to the same
      screen the login itself chose. */
  lemma ResumeAgreesWithLogin(role: Role, account: Account)
    ensures ResumeScreen(Some(RoleName(SessionFor(role, account).role))) == Some(ScreenFor(role))
  {
  }
}

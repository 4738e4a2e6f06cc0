/** The session: a fixed allow-list of staff accounts, the first-match login
    lookup, and the routing that picks which panel is rendered from the
    persisted session and the navigation state. */
module Session {
  import opened Options

  datatype Role = Admin | Electrician

  /** An allow-list identity; the password is compared as plain text. */
  datatype Account = Account(id: string, username: string, password: string, role: Role)

  /** The hard-coded accounts, in their declared order. */
  const AllowList: seq<Account> := [
    Account("admin1", "luckyrounak", "@Vishu", Admin),
    Account("elec1", "elec1", "password", Electrician),
    Account("elec2", "elec2", "password", Electrician)
  ]

  predicate Matches(a: Account, username: string, password: string) {
    a.username == username && a.password == password
  }

  /** `find` over the accounts: the position of the FIRST account whose
      username and password both equal the input exactly, if any. */
  function FindAccount(accounts: seq<Account>, username: string, password: string): (r: Option<nat>)
    ensures r.Some? ==> r.value < |accounts| && Matches(accounts[r.value], username, password)
    ensures r.Some? ==> forall j :: 0 <= j < r.value ==> !Matches(accounts[j], username, password)
    ensures r.None? ==> forall j :: 0 <= j < |accounts| ==> !Matches(accounts[j], username, password)
  {
    if accounts == [] then None
    else if Matches(accounts[0], username, password) then Some(0)
    else
      match FindAccount(accounts[1..], username, password)
      case None => None
      case Some(i) => Some(i + 1)
  }

  /** `find` over the roster by account id (the admin's electrician
      selection): the position of the first account with that id. */
  function FindById(roster: seq<Account>, id: string): (r: Option<nat>)
    ensures r.Some? ==> r.value < |roster| && roster[r.value].id == id
    ensures r.Some? ==> forall j :: 0 <= j < r.value ==> roster[j].id != id
    ensures r.None? ==> forall j :: 0 <= j < |roster| ==> roster[j].id != id
  {
    if roster == [] then None
    else if roster[0].id == id then Some(0)
    else
      match FindById(roster[1..], id)
      case None => None
      case Some(i) => Some(i + 1)
  }

  /** The accounts whose role is electrician, in allow-list order: the
      roster the admin assigns from and reports on. */
  function Electricians(accounts: seq<Account>): (r: seq<Account>)
    ensures |r| <= |accounts|
    ensures forall a :: a in r <==> a in accounts && a.role == Electrician
  {
    if accounts == [] then []
    else (if accounts[0].role == Electrician then [accounts[0]] else []) + Electricians(accounts[1..])
  }

  /** The navigation state. `AdminPanel` and `ElectricianPanel` are what a
      login sets; the switch over the navigation state has no case for them. */
  datatype Panel = HomePanel | AboutPanel | PricingPanel | RegisterPanel | TrackPanel
                 | AdminPanel | ElectricianPanel

  /** What is rendered. */
  datatype View = AdminView(electricians: seq<Account>) | ElectricianView(username: string)
                | HomeView | AboutView | PricingView | RegisterView | TrackView

  /** The panel a successful login navigates to. */
  function PanelAfterLogin(role: Role): Panel {
    if role == Admin then AdminPanel else ElectricianPanel
  }

  /** The routing: a persisted session decides by its role; only without
      one does the navigation state decide, unknown panels falling back to
      the home view. */
  function Render(session: Option<Account>, panel: Panel): View {
    if session.Some? && session.value.role == Admin then AdminView(Electricians(AllowList))
    else if session.Some? && session.value.role == Electrician then ElectricianView(session.value.username)
    else
      match panel
      case HomePanel => HomeView
      case PricingPanel => PricingView
      case RegisterPanel => RegisterView
      case TrackPanel => TrackView
      case AboutPanel => AboutView
      case _ => HomeView
  }

  /** With a session present the navigation state is irrelevant: a signed-in
      user who presses "Track Complaint" still sees their own dashboard. */
  lemma SessionOverridesPanel(a: Account, p: Panel, q: Panel)
    ensures Render(Some(a), p) == Render(Some(a), q)
    ensures Render(Some(a), p) == if a.role == Admin then AdminView(Electricians(AllowList))
                                  else ElectricianView(a.username)
  {
  }

  /** The routing trusts the persisted record as it stands: a record with
      the admin role renders the admin dashboard even when no allow-list
      account has its fields (a stale or hand-written record). */
  lemma PersistedRecordIsTrusted(p: Panel)
    ensures var forged := Account("x", "x", "x", Admin);
      forged !in AllowList && Render(Some(forged), p) == AdminView(Electricians(AllowList))
  {
  }

  /** The allow-list holds exactly the two electricians, in order. */
  lemma RosterIsElec1Elec2()
    ensures Electricians(AllowList) == [AllowList[1], AllowList[2]]
  {
    assert AllowList[1..][1..][1..] == [];
  }

  /** The allow-list's usernames are pairwise distinct, so the first match is
      the only match. */
  lemma AllowListFirstMatchIsOnly(username: string, password: string, i: nat)
    requires i < |AllowList| && Matches(AllowList[i], username, password)
    ensures FindAccount(AllowList, username, password) == Some(i)
  {
    var r := FindAccount(AllowList, username, password);
    assert AllowList[0].username != AllowList[1].username;
    assert AllowList[0].username != AllowList[2].username;
    assert AllowList[1].username != AllowList[2].username;
    assert r.Some?;
  }
}

/**
 * The index controller of the scoreboard: team registration (optionally
 * with a player roster and an invite token) and team login. `Login`,
 * `Register` and `Handle` give the effect of each operation on the
 * collaborator state as a value; `LoginTeam`, `RegisterTeam` and
 * `HandleAction` perform the same operations step by step on a `Backend`
 * and are proved to agree with them. The lemmas state the registration and
 * login policy.
 */
module IndexAjax {
  import opened Optional
  import opened PhpStrings
  import opened Store

  /** The response envelope: ok_response(message, redirect) or error_response(message, context). */
  datatype Response = Ok(message: string, redirect: string) | Error(message: string, context: string)

  /**
   * What a request ends in: a response, or an abort (a failed
   * must_have_* lookup, a failed `invariant`, or a runtime error).
   */
  datatype Outcome = Returned(response: Response) | Aborted

  /** The collaborator state after a request, and how the request ended. */
  datatype Step = Step(state: State, outcome: Outcome)

  /**
   * What the outside world decides during a request: the logo
   * Logo::randomLogo picks, whether the storage accepts Team::create, the
   * CSRF token drawn from random bytes, and the caller's REMOTE_ADDR.
   */
  datatype Environment = Environment(randomLogo: string, storageAccepts: bool, csrfToken: string, remoteAddr: string)

  /** The arguments of registerTeam. */
  datatype Registration = Registration(
    teamname: string,
    password: string,
    token: Option<string>,
    logo: string,
    registerNames: bool,
    names: seq<string>,
    emails: seq<string>)

  /**
   * The filtered request parameters. A string field is None when it is
   * missing or not a string; `names` and `emails` hold the JSON-decoded
   * arrays and are None when the field is missing or does not decode to an
   * array.
   */
  datatype Params = Params(
    teamId: Option<int>,
    teamname: Option<string>,
    password: Option<string>,
    logo: Option<string>,
    token: Option<string>,
    names: Option<seq<string>>,
    emails: Option<seq<string>>)

  const LoginFailed := Error("Login failed", "login")
  const RegistrationFailed := Error("Registration failed", "registration")
  const InvalidAction := Error("Invalid action", "index")
  /** The success message, spelled as the controller spells it. */
  const LoginSucceeded := "Login succesful"
  /** Team names are cut to this many characters so that they fit the UI. */
  const MaxNameLength := 20
  /** The session keys a login writes. */
  const LoginKeys := {"team_id", "name", "csrf_token", "IP", "admin"}

  // ---------------------------------------------------------------- login

  /** The session after a successful login: filled in only when no team is logged in yet. */
  function LoginSession(session: map<string, string>, id: int, team: Team, env: Environment): (r: map<string, string>)
    ensures Active(session) ==> r == session
    ensures !Active(session) ==> Active(r) && "name" in r && r["team_id"] == IntToString(id) && r["name"] == team.name
    ensures ("admin" in r && (!("admin" in session) || r["admin"] != session["admin"])) ==> team.admin
  {
    if Active(session) then session
    else
      var filled := session["team_id" := IntToString(id)]["name" := team.name]
                           ["csrf_token" := env.csrfToken]["IP" := env.remoteAddr];
      if team.admin then filled["admin" := "1"] else filled
  }

  /** loginTeam(team_id, password) */
  function Login(s: State, id: int, password: string, env: Environment): (r: Step)
    ensures r.state == s.(session := r.state.session)
    ensures r.outcome.Returned?
    ensures r.outcome.response.Ok? <==> s.config.login != "0" && Credentials(s, id, password).Some?
    ensures r.outcome.response.Error? ==> r == Step(s, Returned(LoginFailed))
    ensures r.outcome.response.Ok? ==>
      r.outcome.response == Ok(LoginSucceeded, if s.teams[id].admin then "admin" else "game")
    ensures Active(s.session) ==> r.state.session == s.session
  {
    if s.config.login == "0" then Step(s, Returned(LoginFailed))
    else match Credentials(s, id, password)
      case None => Step(s, Returned(LoginFailed))
      case Some(team) =>
        Step(s.(session := LoginSession(s.session, id, team, env)),
             Returned(Ok(LoginSucceeded, if team.admin then "admin" else "game")))
  }

  /**
   * A successful login into a session with no team logged in writes the
   * team id, the team name, the CSRF token and the caller's address, and
   * the admin marker exactly for admin teams; other keys keep their values.
   */
  lemma LoginFillsSession(s: State, id: int, password: string, env: Environment)
    requires Login(s, id, password, env).outcome.response.Ok? && !Active(s.session)
    ensures var session := Login(s, id, password, env).state.session;
      && session.Keys == s.session.Keys + {"team_id", "name", "csrf_token", "IP"}
                         + (if s.teams[id].admin then {"admin"} else {})
      && session["team_id"] == IntToString(id)
      && session["name"] == s.teams[id].name
      && session["csrf_token"] == env.csrfToken
      && session["IP"] == env.remoteAddr
      && (s.teams[id].admin ==> session["admin"] == "1")
      && (forall k :: k in s.session && k !in LoginKeys ==> session[k] == s.session[k])
      && (!s.teams[id].admin && "admin" in s.session ==> session["admin"] == s.session["admin"])
  {
  }

  /** loginTeam, performed on the collaborators. */
  method LoginTeam(b: Backend, id: int, password: string, env: Environment) returns (r: Response)
    modifies b
    ensures Step(b.Snapshot(), Returned(r)) == Login(old(b.Snapshot()), id, password, env)
  {
    if b.config.login == "0" {
      return LoginFailed;
    }
    var team := b.VerifyCredentials(id, password);
    if team.Some? {
      // SessionUtils::sessionStart only opens the session store
      if !b.SessionActive() {
        // the team was fetched by this id, so its getId() is `id`
        b.SessionSet("team_id", IntToString(id));
        b.SessionSet("name", team.value.name);
        b.SessionSet("csrf_token", env.csrfToken);
        b.SessionSet("IP", env.remoteAddr);
        if team.value.admin {
          b.SessionSet("admin", "1");
        }
      }
      var redirect := if team.value.admin then "admin" else "game";
      r := Ok(LoginSucceeded, redirect);
    } else {
      r := LoginFailed;
    }
  }

  // --------------------------------------------------------- registration

  /** substr(teamname, 0, 20): the name the team is stored under. */
  function ShortName(teamname: string): (r: string)
    ensures |r| == if |teamname| < MaxNameLength then |teamname| else MaxNameLength
    ensures r == teamname[..|r|]
  {
    Prefix(teamname, MaxNameLength)
  }

  /** The logo a new team gets: the requested one if it exists, else the randomly drawn one. */
  function ChosenLogo(s: State, requested: string, env: Environment): (r: string)
    ensures r == requested || r == env.randomLogo
    ensures requested in s.logos ==> r == requested
    ensures requested !in s.logos ==> r == env.randomLogo
    ensures env.randomLogo in s.logos ==> r in s.logos
  {
    if requested in s.logos then requested else env.randomLogo
  }

  /** The roster entries for the first |names| players, in index order. */
  function Entries(names: seq<string>, emails: seq<string>, teamId: int): (r: seq<Player>)
    requires |names| <= |emails|
    ensures |r| == |names|
    ensures forall i :: 0 <= i < |names| ==> r[i] == Player(names[i], emails[i], teamId)
  {
    if names == [] then []
    else Entries(names[..|names| - 1], emails, teamId) + [Player(names[|names| - 1], emails[|names| - 1], teamId)]
  }

  /** The guards registration passes before it touches the team store. */
  predicate Admitted(s: State, req: Registration) {
    && s.config.registration != "0"
    && (s.config.registrationType == "2" ==> req.token.Some? && TokenUsable(s, req.token.value))
    && Trim(req.teamname) != ""
    && !NameTaken(s.teams, ShortName(req.teamname))
  }

  /**
   * What registration does once the guards have passed: create the team,
   * store the roster, use the token, then log the new team in.
   */
  function Enrol(s: State, req: Registration, env: Environment): (r: Step)
    requires s.config.registrationType == "2" ==> req.token.Some?
    ensures r.state.config == s.config && r.state.logos == s.logos && r.state.tokens == s.tokens
    ensures !env.storageAccepts ==> r == Step(s, Returned(RegistrationFailed))
    ensures r.outcome == Aborted
         || r.outcome.response in {RegistrationFailed, LoginFailed}
         || r.outcome.response == Ok(LoginSucceeded, "game")
  {
    var (created, id) := CreateTeam(s, ShortName(req.teamname), GenerateHash(req.password),
                                    ChosenLogo(s, req.logo, env), env.storageAccepts);
    if id == 0 then Step(created, Returned(RegistrationFailed))
    else if req.registerNames && |req.emails| < |req.names| then
      // names[i] with no emails[i]: the request dies inside the roster loop
      Step(created.(roster := created.roster + Entries(req.names[..|req.emails|], req.emails, id)), Aborted)
    else
      var enrolled := created.(roster := created.roster
                               + if req.registerNames then Entries(req.names, req.emails, id) else []);
      var admitted := if s.config.registrationType == "2"
                      then enrolled.(used := enrolled.used[req.token.value := id])
                      else enrolled;
      assert admitted.teams[id].admin == false;
      Login(admitted, id, req.password, env)
  }

  /** registerTeam(teamname, password, token, logo, register_names, names, emails) */
  function Register(s: State, req: Registration, env: Environment): (r: Step)
    ensures r.state.config == s.config && r.state.logos == s.logos && r.state.tokens == s.tokens
    ensures s.config.registration == "0" ==> r == Step(s, Returned(RegistrationFailed))
    ensures s.config.registrationType == "2" && (req.token.None? || !TokenUsable(s, req.token.value)) ==>
      r == Step(s, Returned(RegistrationFailed))
    ensures Blank(req.teamname) ==> r == Step(s, Returned(RegistrationFailed))
    ensures NameTaken(s.teams, ShortName(req.teamname)) ==> r == Step(s, Returned(RegistrationFailed))
    ensures !Admitted(s, req) ==> r == Step(s, Returned(RegistrationFailed))
    ensures r.outcome == Aborted
         || r.outcome.response in {RegistrationFailed, LoginFailed}
         || r.outcome.response == Ok(LoginSucceeded, "game")
  {
    TrimEmptyIffBlank(req.teamname);
    if Admitted(s, req) then Enrol(s, req, env) else Step(s, Returned(RegistrationFailed))
  }

  /**
   * Whenever registration answers "Registration failed", the team store,
   * the roster, the tokens and the session are as they were.
   */
  lemma FailedRegistrationChangesNothing(s: State, req: Registration, env: Environment)
    requires Valid(s)
    requires Register(s, req, env).outcome == Returned(RegistrationFailed)
    ensures Register(s, req, env).state == s
  {
  }

  /**
   * A registration that passes the guards, is accepted by the storage and
   * has an email for every name stores exactly one new non-admin team under
   * the next id, with the truncated name, the hashed password and an
   * existing or drawn logo; adds the roster entries in order; uses the
   * token exactly when registration is tokenized; and then answers what
   * logging in as the new team answers, which is "game" unless login is off.
   */
  lemma RegistrationLogsIn(s: State, req: Registration, env: Environment)
    requires Valid(s) && Admitted(s, req) && env.storageAccepts
    requires req.registerNames ==> |req.names| <= |req.emails|
    ensures var r := Register(s, req, env); var id := s.nextId;
      && id !in s.teams
      && r.state.config == s.config && r.state.logos == s.logos && r.state.tokens == s.tokens
      && r.state.teams == s.teams[id := Team(ShortName(req.teamname), GenerateHash(req.password),
                                            ChosenLogo(s, req.logo, env), false)]
      && r.state.nextId == id + 1
      && r.state.roster == s.roster + (if req.registerNames then Entries(req.names, req.emails, id) else [])
      && r.state.used == (if s.config.registrationType == "2" then s.used[req.token.value := id] else s.used)
      && r == Login(r.state.(session := s.session), id, req.password, env)
      && (r.outcome == Returned(Ok(LoginSucceeded, "game")) <==> s.config.login != "0")
  {
  }

  /**
   * A roster with more names than emails makes the request abort after the
   * team was created and one entry per email was stored: the token stays
   * unused and nobody is logged in.
   */
  lemma ShortEmailListAborts(s: State, req: Registration, env: Environment)
    requires Valid(s) && Admitted(s, req) && env.storageAccepts
    requires req.registerNames && |req.emails| < |req.names|
    ensures var r := Register(s, req, env);
      && r.outcome == Aborted
      && r.state.config == s.config && r.state.logos == s.logos && r.state.tokens == s.tokens
      && r.state.teams == s.teams[s.nextId := Team(ShortName(req.teamname), GenerateHash(req.password),
                                                  ChosenLogo(s, req.logo, env), false)]
      && r.state.nextId == s.nextId + 1
      && r.state.roster == s.roster + Entries(req.names[..|req.emails|], req.emails, s.nextId)
      && r.state.used == s.used
      && r.state.session == s.session
  {
  }

  /**
   * The emptiness check looks at the whole submitted name but the team is
   * stored under its first 20 characters: a name of 20 blanks followed by
   * anything else is stored as a name made of blanks only.
   */
  lemma BlankShortNameRegisters(s: State, req: Registration, env: Environment)
    requires Valid(s) && s.config.registration != "0" && s.config.registrationType != "2"
    requires env.storageAccepts && !req.registerNames
    requires |req.teamname| > MaxNameLength && Blank(req.teamname[..MaxNameLength])
    requires !Blank(req.teamname) && !NameTaken(s.teams, req.teamname[..MaxNameLength])
    ensures var teams := Register(s, req, env).state.teams;
      s.nextId in teams && Blank(teams[s.nextId].name) && teams[s.nextId].name != ""
  {
  }

  /** Registration keeps ids positive and fresh and team names unique. */
  lemma RegisterPreservesValid(s: State, req: Registration, env: Environment)
    requires Valid(s)
    ensures Valid(Register(s, req, env).state)
  {
    var r := Register(s, req, env);
    if Admitted(s, req) && env.storageAccepts {
      var name := ShortName(req.teamname);
      var created := CreateTeam(s, name, GenerateHash(req.password), ChosenLogo(s, req.logo, env), true).0;
      assert r.state.teams == created.teams && r.state.nextId == created.nextId;
      forall i, j | i in r.state.teams && j in r.state.teams && r.state.teams[i].name == r.state.teams[j].name
        ensures i == j
      {
        // an old team cannot carry the new name, which was not taken
        assert i != s.nextId ==> i in s.teams && s.teams[i].name == r.state.teams[i].name;
        assert j != s.nextId ==> j in s.teams && s.teams[j].name == r.state.teams[j].name;
        assert r.state.teams[s.nextId].name == name;
      }
    }
  }

  /**
   * The roster loop: stores (names[i], emails[i], teamId) for i in index
   * order, and stops at the first name without an email, reporting that.
   */
  method AddRoster(b: Backend, names: seq<string>, emails: seq<string>, teamId: int) returns (complete: bool)
    modifies b
    ensures complete <==> |names| <= |emails|
    ensures b.Snapshot() == old(b.Snapshot()).(roster := old(b.roster)
              + Entries(if complete then names else names[..|emails|], emails, teamId))
  {
    var i := 0;
    while i < |names|
      invariant i <= |names| && i <= |emails|
      invariant b.Snapshot() == old(b.Snapshot()).(roster := old(b.roster) + Entries(names[..i], emails, teamId))
    {
      if i >= |emails| {
        // emails[i] is undefined
        return false;
      }
      assert names[..i + 1][..i] == names[..i];
      b.AddTeamData(names[i], emails[i], teamId);
      i := i + 1;
    }
    assert names[..i] == names;
    return true;
  }

  /** The part of registerTeam after the guards, performed on the collaborators. */
  method EnrolTeam(b: Backend, req: Registration, env: Environment, finalLogo: string) returns (o: Outcome)
    requires b.config.registrationType == "2" ==> req.token.Some?
    requires finalLogo == ChosenLogo(b.Snapshot(), req.logo, env)
    modifies b
    ensures Step(b.Snapshot(), o) == Enrol(old(b.Snapshot()), req, env)
  {
    var hash := GenerateHash(req.password);
    var id := b.Create(ShortName(req.teamname), hash, finalLogo, env.storageAccepts);
    if id == 0 {
      return Returned(RegistrationFailed);
    }
    if req.registerNames {
      var complete := AddRoster(b, req.names, req.emails, id);
      if !complete {
        return Aborted;
      }
    }
    if b.config.registrationType == "2" {
      b.UseToken(req.token.value, id);
    }
    var r := LoginTeam(b, id, req.password, env);
    o := Returned(r);
  }

  /** registerTeam, performed on the collaborators. */
  method RegisterTeam(b: Backend, req: Registration, env: Environment) returns (o: Outcome)
    modifies b
    ensures Step(b.Snapshot(), o) == Register(old(b.Snapshot()), req, env)
  {
    if b.config.registration == "0" {
      return Returned(RegistrationFailed);
    }
    if b.config.registrationType == "2" {
      if req.token.None? || !b.TokenCheck(req.token.value) {
        return Returned(RegistrationFailed);
      }
    }
    var finalLogo := req.logo;
    if !b.LogoExists(finalLogo) {
      finalLogo := env.randomLogo;
    }
    if Trim(req.teamname) == "" {
      return Returned(RegistrationFailed);
    }
    var shortname := ShortName(req.teamname);
    if b.TeamExist(shortname) {
      return Returned(RegistrationFailed);
    }
    o := EnrolTeam(b, req, env, finalLogo);
  }
  // ------------------------------------------------------------- dispatch

  /** getActions: the actions the controller handles. */
  const Actions := ["register_team", "register_names", "login_team"]

  /** The branch of the action switch a request takes. */
  datatype Route = Unhandled | ToRegisterTeam | ToRegisterNames | ToLoginTeam

  /** The action switch: 'none' and every action not listed in getActions fall to the error branches. */
  function RouteOf(action: string): (r: Route)
    ensures r.Unhandled? <==> action !in Actions
    ensures action == "none" ==> r.Unhandled?
    ensures r == ToLoginTeam <==> action == "login_team"
  {
    if action == "register_team" then ToRegisterTeam
    else if action == "register_names" then ToRegisterNames
    else if action == "login_team" then ToLoginTeam
    else Unhandled
  }

  /** strval() of a filtered field: null (a missing or rejected value) becomes the empty string. */
  function StrVal(value: Option<string>): string {
    if value.Some? then value.value else ""
  }

  /** handleAction(action, params) */
  ghost function Handle(s: State, action: string, p: Params, env: Environment): (r: Step)
    ensures r.state.config == s.config && r.state.logos == s.logos && r.state.tokens == s.tokens
  {
    match RouteOf(action)
    case Unhandled => Step(s, Returned(InvalidAction))
    case ToRegisterTeam =>
      if p.teamname.None? || p.password.None? || p.logo.None? then Step(s, Aborted)
      else Register(s, Registration(p.teamname.value, p.password.value, Some(StrVal(p.token)), p.logo.value,
                                    false, [], []), env)
    case ToRegisterNames =>
      if p.names.None? || p.emails.None? then Step(s, Aborted)
      else if p.teamname.None? || p.password.None? || p.logo.None? then Step(s, Aborted)
      else Register(s, Registration(p.teamname.value, p.password.value, Some(StrVal(p.token)), p.logo.value,
                                    true, p.names.value, p.emails.value), env)
    case ToLoginTeam =>
      if s.config.loginSelect == "1" then
        if p.teamId.None? || p.password.None? then Step(s, Aborted)
        else Login(s, p.teamId.value, p.password.value, env)
      else if p.teamname.None? then Step(s, Aborted)
      else if !NameTaken(s.teams, p.teamname.value) then Step(s, Returned(LoginFailed))
      else if p.password.None? then Step(s, Aborted)
      else
        var id :| id in s.teams && s.teams[id].name == p.teamname.value;
        Login(s, id, p.password.value, env)
  }

  /** handleAction, performed on the collaborators. */
  method HandleAction(b: Backend, action: string, p: Params, env: Environment) returns (o: Outcome)
    requires Valid(b.Snapshot())
    modifies b
    ensures Step(b.Snapshot(), o) == Handle(old(b.Snapshot()), action, p, env)
    ensures Valid(b.Snapshot())
  {
    HandlePreservesValid(b.Snapshot(), action, p, env);
    match RouteOf(action)
    case Unhandled =>
      o := Returned(InvalidAction);
    case ToRegisterTeam =>
      if p.teamname.None? || p.password.None? || p.logo.None? {
        return Aborted;
      }
      o := RegisterTeam(b, Registration(p.teamname.value, p.password.value, Some(StrVal(p.token)), p.logo.value,
                                        false, [], []), env);
    case ToRegisterNames =>
      if p.names.None? || p.emails.None? {
        // invariant(is_array($names) && is_array($emails)) fails
        return Aborted;
      }
      if p.teamname.None? || p.password.None? || p.logo.None? {
        return Aborted;
      }
      o := RegisterTeam(b, Registration(p.teamname.value, p.password.value, Some(StrVal(p.token)), p.logo.value,
                                        true, p.names.value, p.emails.value), env);
    case ToLoginTeam =>
      var id: int;
      if b.config.loginSelect == "1" {
        if p.teamId.None? {
          return Aborted;
        }
        id := p.teamId.value;
      } else {
        if p.teamname.None? {
          return Aborted;
        }
        if b.TeamExist(p.teamname.value) {
          id := b.GetTeamByName(p.teamname.value);
          // names are unique, so this is the team Handle picks
          ghost var picked :| picked in b.teams && b.teams[picked].name == p.teamname.value;
          assert id == picked;
        } else {
          return Returned(LoginFailed);
        }
      }
      if p.password.None? {
        return Aborted;
      }
      var r := LoginTeam(b, id, p.password.value, env);
      o := Returned(r);
  }

  /** Exactly the actions outside getActions, 'none' among them, are answered "Invalid action", with no change. */
  lemma HandleRejectsExactlyUnknownActions(s: State, action: string, p: Params, env: Environment)
    ensures Handle(s, action, p, env).outcome == Returned(InvalidAction) <==> action !in Actions
    ensures action !in Actions ==> Handle(s, action, p, env).state == s
  {
  }

  /** With login_select '1', login uses the submitted team id as it is. */
  lemma HandleLoginById(s: State, p: Params, env: Environment)
    requires s.config.loginSelect == "1" && p.teamId.Some? && p.password.Some?
    ensures Handle(s, "login_team", p, env) == Login(s, p.teamId.value, p.password.value, env)
  {
  }

  /**
   * Otherwise an unknown team name is answered "Login failed" at once:
   * whatever the password, even a missing one, and with no change.
   */
  lemma HandleLoginUnknownName(s: State, p: Params, env: Environment)
    requires s.config.loginSelect != "1" && p.teamname.Some? && !NameTaken(s.teams, p.teamname.value)
    ensures Handle(s, "login_team", p, env) == Step(s, Returned(LoginFailed))
    ensures forall pw :: Handle(s, "login_team", p.(password := pw), env) == Handle(s, "login_team", p, env)
  {
  }

  /** A known team name logs in the team that carries that name. */
  lemma HandleLoginByName(s: State, p: Params, env: Environment, id: int)
    requires Valid(s) && s.config.loginSelect != "1"
    requires p.teamname.Some? && p.password.Some? && id in s.teams && s.teams[id].name == p.teamname.value
    ensures Handle(s, "login_team", p, env) == Login(s, id, p.password.value, env)
  {
  }

  /**
   * register_team registers without a roster; its token is the filtered
   * token turned into a string, so a missing token is the empty string,
   * never null.
   */
  lemma HandleRegisterTeam(s: State, p: Params, env: Environment)
    requires p.teamname.Some? && p.password.Some? && p.logo.Some?
    ensures Handle(s, "register_team", p, env)
         == Register(s, Registration(p.teamname.value, p.password.value, Some(StrVal(p.token)), p.logo.value,
                                     false, [], []), env)
    ensures p.token.None? && s.config.registrationType == "2" && s.config.registration != "0" && "" !in s.tokens ==>
         Handle(s, "register_team", p, env) == Step(s, Returned(RegistrationFailed))
  {
  }

  /** register_names aborts, before any change, unless both names and emails decode to arrays. */
  lemma HandleRegisterNames(s: State, p: Params, env: Environment)
    ensures p.names.None? || p.emails.None? ==> Handle(s, "register_names", p, env) == Step(s, Aborted)
    ensures p.names.Some? && p.emails.Some? && p.teamname.Some? && p.password.Some? && p.logo.Some? ==>
      Handle(s, "register_names", p, env)
      == Register(s, Registration(p.teamname.value, p.password.value, Some(StrVal(p.token)), p.logo.value,
                                  true, p.names.value, p.emails.value), env)
  {
  }

  /** Every request keeps the repository invariant. */
  lemma HandlePreservesValid(s: State, action: string, p: Params, env: Environment)
    requires Valid(s)
    ensures Valid(Handle(s, action, p, env).state)
  {
    match RouteOf(action)
    case Unhandled =>
    case ToRegisterTeam =>
      if p.teamname.Some? && p.password.Some? && p.logo.Some? {
        RegisterPreservesValid(s, Registration(p.teamname.value, p.password.value, Some(StrVal(p.token)),
                                               p.logo.value, false, [], []), env);
      }
    case ToRegisterNames =>
      if p.names.Some? && p.emails.Some? && p.teamname.Some? && p.password.Some? && p.logo.Some? {
        RegisterPreservesValid(s, Registration(p.teamname.value, p.password.value, Some(StrVal(p.token)),
                                               p.logo.value, true, p.names.value, p.emails.value), env);
      }
    case ToLoginTeam =>
  }

  /**
   * A request that aborts leaves the state as it was, except one: a
   * register_names request whose roster has more names than emails, which
   * aborts after the team was stored.
   */
  lemma HandleAbortsWithoutChange(s: State, action: string, p: Params, env: Environment)
    requires Valid(s) && Handle(s, action, p, env).outcome == Aborted
    ensures Handle(s, action, p, env).state == s
         || (action == "register_names" && p.names.Some? && p.emails.Some?
             && |p.emails.value| < |p.names.value|)
  {
  }
}

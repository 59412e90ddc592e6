/**
 * The collaborators the index controller calls: the Configuration flags,
 * the Team repository (teams and their player rosters), the Token service,
 * the Logo service and the SessionUtils session store. `State` is their
 * combined value; `Backend` holds the same state in fields and offers the
 * calls the controller makes, each proved to change exactly what the
 * matching function on `State` says.
 */
module Store {
  import opened Optional

  /**
   * A password hash, idealised as collision-free: two digests are equal
   * exactly when they were made from the same password.
   */
  datatype Digest = Digest(password: string)

  function GenerateHash(password: string): Digest {
    Digest(password)
  }

  /** A stored team; its integer id is its key in the team map. */
  datatype Team = Team(name: string, hash: Digest, logo: string, admin: bool)

  /** One roster entry: a player's name and email, tied to a team id. */
  datatype Player = Player(name: string, email: string, teamId: int)

  /** The string-valued configuration toggles the controller reads. */
  datatype Config = Config(registration: string, registrationType: string, login: string, loginSelect: string)

  datatype State = State(
    config: Config,
    teams: map<int, Team>,
    nextId: int,                 // the id the next created team receives
    roster: seq<Player>,
    logos: set<string>,          // logo names that exist
    tokens: set<string>,         // issued registration tokens
    used: map<string, int>,      // used tokens, with the team that used each
    session: map<string, string>)

  /** Team::teamExist: some stored team has this name. */
  predicate NameTaken(teams: map<int, Team>, name: string) {
    exists id :: id in teams && teams[id].name == name
  }

  /**
   * The repository's invariant: ids are positive and below `nextId`, and no
   * two teams share a name.
   */
  predicate Valid(s: State) {
    && s.nextId >= 1
    && (forall id :: id in s.teams ==> 1 <= id < s.nextId)
    && (forall i, j :: i in s.teams && j in s.teams && s.teams[i].name == s.teams[j].name ==> i == j)
  }

  /** Token::check: the token was issued and has not been used. */
  predicate TokenUsable(s: State, token: string) {
    token in s.tokens && token !in s.used
  }

  /** Team::verifyCredentials: the team with this id, if the password matches its hash. */
  function Credentials(s: State, id: int, password: string): Option<Team> {
    if id in s.teams && s.teams[id].hash == GenerateHash(password) then Some(s.teams[id]) else None
  }

  /** SessionUtils::sessionActive: a team is logged in to the current session. */
  predicate Active(session: map<string, string>) {
    "team_id" in session
  }

  /**
   * Team::create, as this model assumes it behaves (its code is not part of
   * this model): when the storage accepts the insert, a team that is not an
   * admin is stored under the next id and that id is returned; otherwise 0
   * is returned and nothing is stored.
   */
  function CreateTeam(s: State, name: string, hash: Digest, logo: string, accepted: bool): (r: (State, int))
    ensures accepted ==> r.1 == s.nextId && r.0.teams == s.teams[s.nextId := Team(name, hash, logo, false)]
    ensures accepted ==> r.0 == s.(teams := r.0.teams, nextId := s.nextId + 1)
    ensures !accepted ==> r == (s, 0)
    ensures Valid(s) && accepted ==> s.nextId !in s.teams && r.1 != 0
  {
    if accepted then
      (s.(teams := s.teams[s.nextId := Team(name, hash, logo, false)], nextId := s.nextId + 1), s.nextId)
    else
      (s, 0)
  }

  class Backend {
    var config: Config
    var teams: map<int, Team>
    var nextId: int
    var roster: seq<Player>
    var logos: set<string>
    var tokens: set<string>
    var used: map<string, int>
    var session: map<string, string>

    /** The value of all collaborator state. */
    function Snapshot(): State
      reads this
    {
      State(config, teams, nextId, roster, logos, tokens, used, session)
    }

    /** Logo::checkExists */
    predicate LogoExists(logo: string)
      reads this
    {
      logo in logos
    }

    /** Team::teamExist */
    predicate TeamExist(name: string)
      reads this
    {
      NameTaken(teams, name)
    }

    /** Token::check */
    predicate TokenCheck(token: string)
      reads this
    {
      TokenUsable(Snapshot(), token)
    }

    /** SessionUtils::sessionActive */
    predicate SessionActive()
      reads this
    {
      Active(session)
    }

    /** Team::verifyCredentials */
    function VerifyCredentials(id: int, password: string): Option<Team>
      reads this
    {
      Credentials(Snapshot(), id, password)
    }

    /** Team::getTeamByName(name)->getId(): the id of a team with this name. */
    method GetTeamByName(name: string) returns (id: int)
      requires TeamExist(name)
      ensures id in teams && teams[id].name == name
    {
      id :| id in teams && teams[id].name == name;
    }

    /** Team::create */
    method Create(name: string, hash: Digest, logo: string, accepted: bool) returns (id: int)
      modifies this
      ensures (Snapshot(), id) == CreateTeam(old(Snapshot()), name, hash, logo, accepted)
    {
      if accepted {
        id := nextId;
        teams := teams[id := Team(name, hash, logo, false)];
        nextId := nextId + 1;
      } else {
        id := 0;
      }
    }

    /** Team::addTeamData: append one roster entry. */
    method AddTeamData(name: string, email: string, teamId: int)
      modifies this
      ensures Snapshot() == old(Snapshot()).(roster := old(roster) + [Player(name, email, teamId)])
    {
      roster := roster + [Player(name, email, teamId)];
    }

    /** Token::use: mark the token used by the team. */
    method UseToken(token: string, teamId: int)
      modifies this
      ensures Snapshot() == old(Snapshot()).(used := old(used)[token := teamId])
    {
      used := used[token := teamId];
    }

    /** SessionUtils::sessionSet */
    method SessionSet(key: string, value: string)
      modifies this
      ensures Snapshot() == old(Snapshot()).(session := old(session)[key := value])
    {
      session := session[key := value];
    }
  }
}

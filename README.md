# Team registration and login policy of the fbctf index controller

This project models, in Dafny, the index controller of the fbctf
capture-the-flag scoreboard (`IndexAjaxController`): the filters it declares
for its POST fields, the switch over its three actions (`register_team`,
`register_names`, `login_team`), team registration and team login.

Everything the controller calls out to is modelled as collaborator state
(module `Store`): the four configuration toggles (`registration`,
`registration_type`, `login`, `login_select`) as strings, the teams as a map
from id to record (name, password hash, logo, admin flag), the player roster
as a sequence of (name, email, team id) entries, the existing logos, the
issued and used invite tokens, and the session as a string map. `State` is
that state as a value; the class `Backend` holds it in fields and offers the
collaborator calls (`Create`, `AddTeamData`, `UseToken`, `SessionSet`, ...).

Module `IndexAjax` states each operation twice. `Login`, `Register` (with
`Enrol` for the part after the guards) and `Handle` give the state after a
request and how the request ended, as functions of the state before it.
`LoginTeam`, `RegisterTeam` (with `EnrolTeam` and the roster loop
`AddRoster`) and `HandleAction` do the same work step by step on a `Backend`,
in the controller's own order, and their postconditions say that the final
state and answer are what the functions give. The lemmas beside them state
the registration and login policy.

Module `Filters` models the filter table and the two anchored patterns
`/^[\w]+$/` (token) and `/^[\w-]+$/` (logo, action). Module `PhpStrings`
models `trim`, `substr(s, 0, n)` and `strval` of an integer.

What the outside world decides during a request is a parameter
(`Environment`): the logo `Logo::randomLogo` draws, whether the storage
accepts `Team::create`, the CSRF token made from random bytes, and the
caller's `REMOTE_ADDR`.

Behaviour of the code that the model keeps, and that the controller's names
and comments would not suggest:

- The anchored patterns use `$` without the D modifier, so a value followed
  by a single newline also passes (`TrailingNewlinePasses`).
- The emptiness check trims the whole submitted name, but the team is stored
  under its first 20 characters: 20 blanks followed by a visible character
  create a team whose name is blank (`BlankShortNameRegisters`).
- The roster loop reads `emails[i]` without checking that it exists. The
  model takes such a read to end the request: reading a missing array element
  gives null, and `Team::addTeamData` (not part of this model) declares its
  email parameter as `string`, which rejects null. Under that reading, with
  more names than emails the request ends inside the loop, after the team
  and the first |emails| roster entries were stored, before the token is
  used and before any login (`ShortEmailListAborts`).
- `handleAction` passes the token through `strval`. The model takes
  `must_have_idx` (not part of this model) to accept a token field whose
  filtered value is null, so a token that is missing or that the filter
  rejects reaches registration as the empty string and never as null.
  Since `handleAction` is the only caller of the private `registerTeam`,
  the `$token === null` test in registration can then never succeed
  (`HandleRegisterTeam`).
- A failed `Team::create` is recognised by its result being 0, as PHP's
  truthiness test does. Under the repository invariant `Valid` ids are
  positive, so this happens exactly when the storage refuses the insert.
- The success message is spelled "Login succesful", as in the code.

## Model

| member | source | states |
|---|---|---|
| `Filters.FilterFor` | src/controllers/ajax/IndexAjaxController.php:5-33 | the eight filtered fields; `team_id` is the integer field, `token` uses `[\w]`, `logo` and `action` use `[\w-]`, the rest pass raw |
| `Filters.Matches` | src/controllers/ajax/IndexAjaxController.php:11-30 | `^[class]+$` matches: a non-empty run of class characters from the start ends where `$` holds |
| `Filters.Passes` | src/controllers/ajax/IndexAjaxController.php:9-30 | a string value survives a raw filter always and a regexp filter when its pattern matches |
| `Filters.MatchesExactly` | src/controllers/ajax/IndexAjaxController.php:11-30 | an anchored `^[class]+$` pattern accepts exactly the non-empty class strings and those strings followed by one newline |
| `Filters.FieldFilters` | src/controllers/ajax/IndexAjaxController.php:11-30 | on values without a newline, logo and action accept exactly the non-empty strings over `[A-Za-z0-9_-]`, token exactly those over `[A-Za-z0-9_]` |
| `Filters.TrailingNewlinePasses` | src/controllers/ajax/IndexAjaxController.php:14-28 | a value that passes still passes with a newline appended |
| `Filters.TokenStricterThanLogo` | src/controllers/ajax/IndexAjaxController.php:14-20 | every acceptable token is an acceptable logo or action; "-" is a logo but not a token |
| `PhpStrings.TrimLeft` | src/controllers/ajax/IndexAjaxController.php:132 | the front-trimmed string is a suffix whose dropped prefix is blank and which starts with a kept character |
| `PhpStrings.TrimRight` | src/controllers/ajax/IndexAjaxController.php:132 | the back-trimmed string is a prefix whose dropped suffix is blank and which ends with a kept character |
| `PhpStrings.TrimEmptyIffBlank` | src/controllers/ajax/IndexAjaxController.php:132 | `trim` yields "" exactly when every character is space, tab, newline, carriage return, NUL or vertical tab |
| `PhpStrings.Prefix` | src/controllers/ajax/IndexAjaxController.php:137 | `substr(s, 0, n)` has length min(n, length of s) and agrees with `s` position by position |
| `PhpStrings.Trim` | src/controllers/ajax/IndexAjaxController.php:132 | `trim`: strips the default character set from both ends (its emptiness is stated by `TrimEmptyIffBlank`) |
| `PhpStrings.IntToString` | src/controllers/ajax/IndexAjaxController.php:177 | `strval` of an integer is non-empty and starts with a minus sign exactly for negative numbers |
| `PhpStrings.NatToStringValue` | src/controllers/ajax/IndexAjaxController.php:177 | the decimal digits written for a team id denote that id |
| `PhpStrings.IntToStringInjective` | src/controllers/ajax/IndexAjaxController.php:177 | different team ids give different `team_id` session values |
| `Store.GenerateHash` | src/controllers/ajax/IndexAjaxController.php:141 | `Team::generateHash`, idealised: equal digests exactly for equal passwords |
| `Store.NameTaken` | src/controllers/ajax/IndexAjaxController.php:140 | `Team::teamExist`: some stored team carries the name |
| `Store.TokenUsable` | src/controllers/ajax/IndexAjaxController.php:120 | `Token::check`: the token was issued and not yet used |
| `Store.Credentials` | src/controllers/ajax/IndexAjaxController.php:172 | `Team::verifyCredentials`: the team with this id when the password's hash matches its hash |
| `Store.Active` | src/controllers/ajax/IndexAjaxController.php:176 | `SessionUtils::sessionActive`: the session holds a team id |
| `Store.CreateTeam` | src/controllers/ajax/IndexAjaxController.php:142-143 | an accepted create stores a non-admin team under the next id and returns it, non-zero and fresh under `Valid`; a refused one returns 0 and stores nothing |
| `Store.Backend.Create` | src/controllers/ajax/IndexAjaxController.php:142 | the collaborator state and returned id are those `CreateTeam` gives |
| `Store.Backend.AddTeamData` | src/controllers/ajax/IndexAjaxController.php:147 | appends one roster entry and changes nothing else |
| `Store.Backend.UseToken` | src/controllers/ajax/IndexAjaxController.php:153 | records the token as used by the team and changes nothing else |
| `Store.Backend.SessionSet` | src/controllers/ajax/IndexAjaxController.php:177-183 | writes one session key and changes nothing else |
| `Store.Backend.GetTeamByName` | src/controllers/ajax/IndexAjaxController.php:84 | returns the id of a stored team with the given name |
| `IndexAjax.LoginSession` | src/controllers/ajax/IndexAjaxController.php:175-184 | an active session is returned as it is; an inactive one becomes active with the team's id and name, and the admin key changes only for admin teams |
| `IndexAjax.Login` | src/controllers/ajax/IndexAjaxController.php:165-194 | only the session can change; success exactly when the login toggle is not '0' and the credentials verify; failure is "Login failed"/login with no change; success redirects to `admin` exactly for admin teams and to `game` otherwise; an active session is left alone |
| `IndexAjax.LoginFillsSession` | src/controllers/ajax/IndexAjaxController.php:175-184 | a successful login into an inactive session adds team_id, name, csrf_token, IP, and admin exactly for admin teams, with those values, and keeps every other key |
| `IndexAjax.LoginTeam` | src/controllers/ajax/IndexAjaxController.php:165-194 | the session updates and the answer are those of `Login` |
| `IndexAjax.ShortName` | src/controllers/ajax/IndexAjaxController.php:136-137 | the stored name is the first min(20, length of teamname) characters of the submitted name |
| `IndexAjax.ChosenLogo` | src/controllers/ajax/IndexAjaxController.php:125-129 | the requested logo when it exists, else the drawn one; so the logo exists whenever the drawn logo does |
| `IndexAjax.Entries` | src/controllers/ajax/IndexAjaxController.php:144-149 | one entry per name, entry i being (names[i], emails[i], team id) |
| `IndexAjax.Enrol` | src/controllers/ajax/IndexAjaxController.php:139-162 | after the guards: leaves configuration, logos and issued tokens alone; a refused create fails with no change; every answer is an abort, a registration or login failure, or a login into `game` |
| `IndexAjax.Admitted` | src/controllers/ajax/IndexAjaxController.php:113-140 | the guard chain: registration on, a usable token when tokenized, a name not blank after trim, a truncated name not taken |
| `IndexAjax.Register` | src/controllers/ajax/IndexAjaxController.php:103-163 | registration off, a tokenized registration without a usable token, a blank name, or a taken truncated name each fail with "Registration failed"/registration and no change, whatever the other inputs; every answer is an abort, one of the two failures, or a login into `game` |
| `IndexAjax.FailedRegistrationChangesNothing` | src/controllers/ajax/IndexAjaxController.php:112-162 | every "Registration failed" answer leaves the whole collaborator state unchanged |
| `IndexAjax.RegistrationLogsIn` | src/controllers/ajax/IndexAjaxController.php:139-156 | an admitted, accepted registration stores exactly one new team (truncated name, hashed password, chosen logo, not admin) under a fresh id, adds exactly the roster entries in order, uses the token iff registration is tokenized, then answers as `Login` of the new id and password, which is a `game` redirect unless login is off |
| `IndexAjax.ShortEmailListAborts` | src/controllers/ajax/IndexAjaxController.php:145-148 | with more names than emails the request aborts after the team and one entry per email were stored, with the token unused and the session untouched |
| `IndexAjax.BlankShortNameRegisters` | src/controllers/ajax/IndexAjaxController.php:131-142 | 20 blanks followed by a visible character pass the emptiness check and store a team whose name is blank |
| `IndexAjax.RegisterPreservesValid` | src/controllers/ajax/IndexAjaxController.php:139-142 | registration keeps team ids positive and below the next id and team names unique |
| `IndexAjax.AddRoster` | src/controllers/ajax/IndexAjaxController.php:145-149 | the loop appends the entries for all names when every name has an email, and otherwise those for the first as many names as there are emails, reporting which |
| `IndexAjax.EnrolTeam` | src/controllers/ajax/IndexAjaxController.php:139-162 | the state and outcome after the create, roster, token and login steps are those of `Enrol` |
| `IndexAjax.RegisterTeam` | src/controllers/ajax/IndexAjaxController.php:103-163 | the state and outcome are those of `Register` |
| `IndexAjax.RouteOf` | src/controllers/ajax/IndexAjaxController.php:36-100 | a request falls to the error branches exactly when its action is not among the three `getActions` names; `none` is one of them |
| `IndexAjax.StrVal` | src/controllers/ajax/IndexAjaxController.php:53 | `strval` of the filtered token: null becomes the empty string |
| `IndexAjax.Handle` | src/controllers/ajax/IndexAjaxController.php:45-101 | the action switch as a function of the state; no request changes the configuration, the logos or the issued tokens |
| `IndexAjax.HandleAction` | src/controllers/ajax/IndexAjaxController.php:45-101 | the state and outcome are those of `Handle`, and the repository invariant still holds afterwards |
| `IndexAjax.HandleRejectsExactlyUnknownActions` | src/controllers/ajax/IndexAjaxController.php:46-99 | the answer is "Invalid action"/index exactly for actions outside `getActions`, and then nothing changes |
| `IndexAjax.HandleLoginById` | src/controllers/ajax/IndexAjaxController.php:79-97 | with `login_select` '1' the submitted id goes to login as it is |
| `IndexAjax.HandleLoginUnknownName` | src/controllers/ajax/IndexAjaxController.php:81-87 | otherwise an unknown team name answers "Login failed"/login with no change, before the password is read and without a credential check |
| `IndexAjax.HandleLoginByName` | src/controllers/ajax/IndexAjaxController.php:81-97 | a known team name logs in the team that carries it |
| `IndexAjax.HandleRegisterTeam` | src/controllers/ajax/IndexAjaxController.php:49-58 | `register_team` registers without a roster, with the token as a string; a missing token under tokenized registration fails unless "" is an issued token |
| `IndexAjax.HandleRegisterNames` | src/controllers/ajax/IndexAjaxController.php:59-76 | `register_names` aborts with no change unless names and emails are arrays, and otherwise registers with that roster |
| `IndexAjax.HandleAbortsWithoutChange` | src/controllers/ajax/IndexAjaxController.php:45-101 | a request that aborts (a missing field, names or emails that are not arrays, a missing team id or password) changes nothing, except a register_names request with more names than emails |
| `IndexAjax.HandlePreservesValid` | src/controllers/ajax/IndexAjaxController.php:45-101 | every request keeps the repository invariant |

## Left out

- The `AjaxController` base class (request routing, applying the filter table, serialising responses to JSON) is not part of this model; `Response` is the envelope as a value.
- `FILTER_VALIDATE_INT` is not modelled: `team_id` arrives as an integer, and `Passes` covers only the string-valued filters.
- `json_decode` is not modelled: `names` and `emails` arrive decoded, with None standing for a missing field or one that is not a JSON array; elements that are not strings are not modelled.
- `must_have_string`, `must_have_int` and `must_have_idx` are modelled by their outcome only: a missing value aborts the request. The token key is taken to be always present, as a filtered parameter array has every declared key.
- HandleRegisterTeam: assumes `must_have_idx` accepts a token field whose filtered value is null (missing from the request, or rejected by the filter), so both reach registration as ""; if it aborts on a null value instead, a missing token would end `register_team` and `register_names` requests with no change, which the model does not capture.
- ShortEmailListAborts: assumes that reading a missing `emails[i]` yields null and that `Team::addTeamData` rejects a null email, ending the request; if the entry were stored with an empty email instead, the loop would complete, which the model does not capture.
- CreateTeam: the code of `Team::create` is not part of this model; the model assumes it stores the new team as not an admin, under a fresh id larger than every existing one, and returns that id. The claims that a registration can only end in a `game` redirect (`Enrol`, `Register`, `RegistrationLogsIn`) depend on the team being created as not an admin.
- Password hashing is idealised as collision-free and `Team::verifyCredentials` as "a team with this id whose hash is the hash of this password"; the real algorithms are not part of this model.
- `Team::teamExist` compares names exactly; any case folding done by the database collation is not modelled.
- `SessionUtils` is not part of this model: `sessionStart` has no modelled effect, and a session counts as active when it holds a `team_id` key.
- The CSRF token (16 random bytes, base64-encoded), the random logo, the caller's address and whether the storage accepts a create are inputs (`Environment`); randomness and I/O are not modelled.
- ChosenLogo: the logo is shown to exist only when the drawn logo exists, since `Logo::randomLogo` is not part of this model.
- Strings are sequences of characters: byte-versus-character differences of `trim` and `substr`, locale-dependent `\w`, and PHP's multibyte behaviour are not modelled.
- The configuration is read once per request; a toggle changing between the two reads of `registration_type` (lines 118 and 151), and concurrent registrations racing for one name, are not modelled. So the `invariant` checks at lines 89 and 152 can never fail in the model.

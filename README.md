# Teams application core, modelled in Dafny

This project models the logic of a small Rails application for sports teams and
their players. It covers four parts:

- The **Team** model: `name` and `home_city` must both be present.
- The **Player** model: `first_name` and `last_name` must be present, and
  `position` must be one of the codes in `POSITIONS = ["G", "F"]`.
- The **teams controller**: its seven actions over the teams table.
  - `index` lists the table ordered by name.
  - `show`, `edit`, `update` and `destroy` look a team up by id and fail with
    `RecordNotFound` when it is absent.
  - `new` renders an empty form.
  - `create` and `update` validate the permitted form values and either commit
    all of them or render the form again with status 422.
- The **route table**: the root redirect and the seven team routes. They are
  matched in declaration order and the first match wins. The named path helpers
  are modelled too.

Layout, one module per file:

| file | module | models |
|---|---|---|
| presence.dfy | `Presence` | nullable attribute values, Rails' `blank?`/`present?`, validation messages |
| team.dfy | `TeamModel` | `app/models/team.rb` |
| player.dfy | `PlayerModel` | `app/models/player.rb` |
| lexicographic.dfy | `Lexicographic` | the string order used for `order(:name)` |
| team_order.dfy | `TeamOrder` | `Team.order(:name)`: the table's rows as a name-sorted listing |
| routing.dfy | `Routing` | `config/routes.rb`: first-match dispatch, parameter binding, path helpers |
| controller.dfy | `Controller` | `app/controllers/teams_controller.rb`: the `TeamsController` class over the teams table |
| scenarios.dfy | `Scenarios` | client methods that replay the controller specs' request sequences against the contracts |

Modelling choices:

- The teams table is the class `Controller.TeamsController`.
  - It has two fields: `teams`, a map from id to attributes, and `nextId`, the
    id sequence.
  - Its invariant `Valid()` says every stored row has an id below `nextId` and
    passes the Team validations.
  - The actions that write (`Create`, `Update`, `Destroy`) are methods with
    `modifies this`. Their postconditions give the whole new table in terms of
    the old one.
  - The read actions return an `Outcome` and change nothing.
- `Team.order(:name)` is a database query with no loop in the source. It is
  modelled as the pure function `TeamOrder.OrderByName`, which inserts rows one
  id at a time into a sorted sequence. `Index` promises only what the query
  promises: the rows are sorted by name, each stored row appears, and no id
  appears twice. Rows with equal names can come in any order.
- The router normalises a request path before it matches routes. The model cuts
  the path into its non-empty `/`-separated segments, which is the same thing.
  A dynamic segment (`:id`) matches one whole segment that has no `.` and no
  `?`, as Rails does by default.
- `to_param` of an id is its decimal digits (`Routing.Decimal`).
  `Routing.ParseDecimal` reads them back, so a path helper's output dispatches
  to an `id` that reads back as the same number.
- Outcomes are labels:
  - `Listing` for `render :index`.
  - `Rendered(view, status, team)` for a template rendered with `@team`.
  - `Redirected(path)` for `redirect_to`.
  - `NotFound` for `ActiveRecord::RecordNotFound`.
  - `BadRequest` for `ActionController::ParameterMissing`, which
    `params.require(:team)` raises when the hash is missing or empty.
- `update` looks the team up before it reads the parameters, so an unknown id
  is `NotFound` even when the form is missing. The model keeps that order.
- None of the following exists in the code, so the model has none of it:
  - a Team–Player association;
  - cascade delete;
  - nested player routes;
  - cross-team player lookup;
  - a requirement that names are non-empty "after trimming".

  Values are stored exactly as submitted, and validation uses `blank?`.

## Model

| member | source | states |
|---|---|---|
| Presence.IsSpace | app/models/team.rb:14-15 | definition: the `[[:space:]]` class (Unicode White_Space) that `blank?` tests every character against |
| Presence.Blank | app/models/team.rb:14-15 | definition: `blank?` on a nullable string, nil or every character white space |
| Presence.Present | app/models/team.rb:14-15 | definition: `present?`, the negation of `blank?`, the test behind `presence: true` |
| Presence.PresentMeansSomeNonSpace | app/models/team.rb:14 | a present value is non-nil and has at least one non-white-space character, and conversely |
| Presence.BlankValues | app/models/team.rb:14-15 | nil, the empty string and every white-space-only string are blank |
| Presence.Text | app/models/player.rb:17-19 | definition: the default English messages, "can't be blank" for presence and "is not included in the list" for inclusion |
| TeamModel.Valid | app/models/team.rb:14-15 | definition: `Team#valid?`, both presence validations pass |
| TeamModel.Errors | app/models/team.rb:13-16 | the error map names exactly the blank attributes, each with "can't be blank", and is empty iff the team is valid |
| TeamModel.ValidIff | app/models/team.rb:14-15 | a team is valid iff name and home city are both non-nil and each has a character that is not white space |
| TeamModel.BlankNameInvalid | app/models/team.rb:14 | a nil, empty or white-space-only name makes the team invalid and is reported under name, whatever the home city |
| TeamModel.BothMissingReportsBoth | app/models/team.rb:14-15 | a team with neither attribute reports both name and home_city |
| TeamModel.ErrorsExactlyBlank | app/models/team.rb:14-15 | a present attribute is never reported; with one attribute blank exactly that one is reported |
| TeamModel.FactoryTeamValid | spec/factories/teams.rb:14-16 | the factory team Dogs/House is valid |
| TeamModel.SeedTeamsValid | db/seeds.rb:13-66 | all three seed teams are valid |
| PlayerModel.Positions | app/models/player.rb:15 | definition: `POSITIONS`, the frozen list of the codes "G" and "F" |
| PlayerModel.Included | app/models/player.rb:19 | definition: `inclusion: { in: POSITIONS }` without `allow_nil`, a non-nil value equal to one of the codes |
| PlayerModel.Valid | app/models/player.rb:17-19 | definition: `Player#valid?`, both names present and the position included |
| PlayerModel.Errors | app/models/player.rb:17-19 | first/last name are reported iff blank, position iff not included; names get "can't be blank", position "is not included in the list"; no errors iff valid |
| PlayerModel.PositionsExactly | app/models/player.rb:15 | POSITIONS is exactly the two-element sequence "G", "F" |
| PlayerModel.IncludedIff | app/models/player.rb:15-19 | inclusion holds iff the position equals "G" or "F" exactly; nil, "", "g" and " G" fail |
| PlayerModel.MissingPositionInvalid | app/models/player.rb:19 | a nil or empty position makes the player invalid, reported as an inclusion failure |
| PlayerModel.FieldsFailIndependently | app/models/player.rb:17-19 | each field's error depends only on that field, and only position can get the inclusion message |
| PlayerModel.ValidWhenVisible | app/models/player.rb:17-19 | names starting with a visible character and a declared position code make a valid player with no errors |
| PlayerModel.FactoryPlayerValid | spec/factories/players.rb:27-29 | the factory player Bob/Jobes/G is valid |
| PlayerModel.SeedPlayersValid | db/seeds.rb:18-84 | all nine seed players pass the attribute validations |
| Lexicographic.StrLe | app/controllers/teams_controller.rb:5 | definition: the name comparison behind `order(:name)`, character by character by code point |
| Lexicographic.StrLeIff | app/controllers/teams_controller.rb:5 | the recursive string comparison holds iff one string is a prefix of the other or is smaller at the first difference |
| Lexicographic.StrLeTotal | app/controllers/teams_controller.rb:5 | any two names are comparable |
| Lexicographic.StrLeAntisymmetric | app/controllers/teams_controller.rb:5 | names that compare both ways are equal |
| Lexicographic.StrLeTransitive | app/controllers/teams_controller.rb:5 | the name order is transitive |
| TeamOrder.NameLe | app/controllers/teams_controller.rb:5 | definition: the `order(:name)` comparison of two teams, ascending by name with nil names last |
| TeamOrder.NameLeTotal | app/controllers/teams_controller.rb:5 | any two teams are comparable by name, with nil names last |
| TeamOrder.NameLeTransitive | app/controllers/teams_controller.rb:5 | the team order by name is transitive |
| TeamOrder.Insert | app/controllers/teams_controller.rb:5 | inserting a row into a sorted listing keeps it sorted and adds exactly that row (multiset) |
| TeamOrder.InsertKeepsDistinct | app/controllers/teams_controller.rb:5 | inserting a row with a new id keeps ids distinct |
| TeamOrder.OrderByName | app/controllers/teams_controller.rb:5 | the listing is sorted by name, has distinct ids, and holds a row iff it is a stored row below the bound |
| TeamOrder.SeedListing | spec/models/team_spec.rb:20-22 | the seeded table ordered by name is Duke, Michigan State, University of Memphis |
| Routing.Routes | config/routes.rb:8-16 | definition: the route table, each entry's verb, pattern and target in declaration order |
| Routing.Segments | config/routes.rb:10-16 | every segment of a path is non-empty and free of slashes |
| Routing.SegmentsOfJoin | config/routes.rb:12-14 | cutting a path joined from well-formed segments gives back those segments |
| Routing.BindingsOfRoutes | config/routes.rb:13-16 | literal segments bind nothing; the member routes bind id to the second segment |
| Routing.IsParamValue | config/routes.rb:13-16 | definition: the default requirement on `:id`, one non-empty segment without `/`, `.` or `?` |
| Routing.Matches | config/routes.rb:8-16 | definition: a route matches when the verb is its verb and each pattern segment matches its path segment |
| Routing.Bindings | config/routes.rb:13-16 | definition: the dynamic segments of a matched pattern, each bound to its path segment |
| Routing.FirstMatch | config/routes.rb:8-16 | the result is the index of a matching route with no earlier match, or none when no route matches |
| Routing.Recognize | config/routes.rb:8-16 | definition: the first matching route's target with its bindings, or none |
| Routing.Dispatch | config/routes.rb:8-16 | definition: recognition of a request path against the declared routes, after cutting it into segments |
| Routing.RecognizeRoot | config/routes.rb:8 | the empty path is the redirect for GET and unrouted otherwise |
| Routing.RecognizeCollection | config/routes.rb:10-11 | a one-segment path: GET teams is index, POST teams is create, nothing else is routed |
| Routing.RecognizeMember | config/routes.rb:12-16 | a two-segment path: GET teams/new is new; GET, PATCH, DELETE teams/:id are show, update, destroy with id bound; nothing else is routed |
| Routing.RecognizeMemberEdit | config/routes.rb:14 | a three-segment path is routed only as GET teams/:id/edit, to edit with id bound |
| Routing.RecognizeLonger | config/routes.rb:8-16 | a path of more than three segments is not routed |
| Routing.DispatchMeansExpected | config/routes.rb:8-16 | for every verb and path, first-match dispatch equals the route table's case-by-case meaning |
| Routing.Decimal | config/routes.rb:13-14 | an id's param is a non-empty string of decimal digits |
| Routing.ParseDecimal | app/controllers/teams_controller.rb:10 | a param reads back as a number iff it is a non-empty string of digits |
| Routing.ParseDecimalOfDecimal | spec/routing/resource_routes_spec.rb:11-13 | reading back an id's digits gives the id |
| Routing.ToParamIsParamValue | config/routes.rb:12-13 | an id's param is a single dynamic-segment value, is never the literal "new", and reads back as the id |
| Routing.ToParam | app/controllers/teams_controller.rb:39 | definition: `to_param` of a record id, its decimal digits |
| Routing.RootPath | config/routes.rb:8 | definition: `root_path`, "/" |
| Routing.TeamsPath | config/routes.rb:10 | definition: `teams_path`, "/teams" |
| Routing.NewTeamPath | config/routes.rb:12 | definition: `new_team_path`, "/teams/new" |
| Routing.TeamPath | config/routes.rb:13 | definition: `team_path(id)`, "/teams/" followed by the id's param |
| Routing.EditTeamPath | config/routes.rb:14 | definition: `edit_team_path(id)`, "/teams/", the id's param, "/edit" |
| Routing.RootPathSegments | config/routes.rb:8 | the root path has no segments |
| Routing.TeamsPathSegments | spec/routing/resource_routes_spec.rb:65-67 | teams_path is the single segment teams |
| Routing.NewTeamPathSegments | spec/routing/resource_routes_spec.rb:73-75 | new_team_path is teams/new |
| Routing.TeamPathSegments | spec/routing/resource_routes_spec.rb:69-71 | team_path(id) is teams followed by the id's param |
| Routing.EditTeamPathSegments | spec/routing/resource_routes_spec.rb:77-79 | edit_team_path(id) is teams, the id's param, edit |
| Routing.RootRedirectsToTeams | config/routes.rb:8 | GET / is a permanent redirect to /teams |
| Routing.RootOnlyAnswersGet | config/routes.rb:8 | any other verb at the root is not routed |
| Routing.TeamsPathRoutes | config/routes.rb:10-11 | GET /teams is index and POST /teams is create |
| Routing.NewTeamPathRoutesToNew | config/routes.rb:12-13 | GET /teams/new dispatches to new, with no id |
| Routing.NewAndShowBothMatch | config/routes.rb:12-13 | both the new route and the show route match teams/new |
| Routing.ShowFirstTakesNew | config/routes.rb:12-13 | with show declared first, the segments teams/new would go to show with id "new" |
| Routing.OrderMatters | config/routes.rb:12-13 | with show declared before new, GET /teams/new would be show of id "new" |
| Routing.TeamPathRoundTrip | config/routes.rb:13-16 | GET, PATCH, DELETE of team_path(id) reach show, update, destroy with id bound to the id's param, which reads back as id |
| Routing.EditTeamPathRoundTrip | config/routes.rb:14 | GET of edit_team_path(id) reaches edit with id bound to the id's param, which reads back as id |
| Routing.UndeclaredRequests | config/routes.rb:10-16 | PUT and POST on a member and DELETE on the collection are not routed |
| Routing.NestedPathsUnrouted | config/routes.rb:13-16 | no path of the form /teams/:id/x (x other than edit) is routed, for any verb |
| Controller.Unset | app/controllers/teams_controller.rb:15 | definition: `Team.new`, a team with no attribute set |
| Controller.Supplied | app/controllers/teams_controller.rb:25 | definition: `params.require(:team)` succeeds when the `team` hash is there and not empty |
| Controller.Assign | app/controllers/teams_controller.rb:37 | definition: attribute assignment, each supplied key overwrites its attribute and the others keep their values |
| Controller.Permit | app/controllers/teams_controller.rb:25 | the permitted hash holds only name and home_city, each with its submitted value when submitted |
| Controller.OnlyPermittedKeysMatter | app/controllers/teams_controller.rb:25-37 | submissions that agree on name and home_city build and update teams identically; other keys have no effect |
| Controller.AssignKeepsUnsupplied | app/controllers/teams_controller.rb:37 | an attribute left out of the submission keeps its value; a submitted one takes the submitted value |
| Controller.AssignNameOnly | app/controllers/teams_controller.rb:37 | updating only the name keeps the home city |
| Controller.AssignIdentityAndIdempotent | app/controllers/teams_controller.rb:37 | a submission with no permitted key changes nothing; assigning twice equals assigning once |
| Controller.BuiltTeamValidity | app/controllers/teams_controller.rb:25-26 | a new team from a submission is valid when both attributes are present, and invalid when either is missing or blank |
| Controller.TeamsController.Valid | app/controllers/teams_controller.rb:26-37 | definition: the table invariant, every stored row has an id below the sequence and passed the Team validations on `save` or `update` |
| Controller.TeamsController.Index | app/controllers/teams_controller.rb:4-7 | the listing is sorted by name, has distinct ids, and holds exactly the stored rows |
| Controller.TeamsController.Show | app/controllers/teams_controller.rb:9-12 | a stored id renders show with that team; an unknown id is NotFound |
| Controller.TeamsController.New | app/controllers/teams_controller.rb:14-17 | renders new with a team with no attribute set, which is not valid |
| Controller.TeamsController.Edit | app/controllers/teams_controller.rb:19-22 | a stored id renders edit with that team; an unknown id is NotFound |
| Controller.TeamsController.Create | app/controllers/teams_controller.rb:24-33 | a valid submission is stored under a fresh id, the count grows by one and the outcome redirects to /teams; an invalid one renders new with 422 and changes nothing; a missing form is BadRequest |
| Controller.TeamsController.Update | app/controllers/teams_controller.rb:35-44 | an unknown id is NotFound; a valid merged team replaces only that row and redirects to team_path(id); an invalid merge renders edit with 422 and changes nothing; ids, count and other rows never change |
| Controller.TeamsController.Destroy | app/controllers/teams_controller.rb:46-51 | removes exactly that id, the count drops by one and the outcome redirects to /teams; an unknown id is NotFound and changes nothing |

## Left out

- The Player–Team association, cascade delete, nested player routes and cross-team player lookup are not modelled. The application code has none of them: `player.rb` has no `belongs_to`, `team.rb` has no `has_many`, and `routes.rb` declares only team routes. The players controller is not part of this model.
- Player persistence is left out because there is no players controller here. Only the Player validations are modelled.
- HTML rendering, flash messages and view templates are left out. An outcome is only a label: a listing, a rendered template with its status and `@team`, a redirect path, or an exception.
- Redirects name the path (`/teams`, `/teams/1`) and not the absolute URL that `teams_url` and `team_url` build from the request host.
- The browser's own "Please fill out this field." check runs on the client, before any request reaches the server. It is not modelled.
- Database internals are left out: the id sequence is a natural number that is handed out and then incremented, and there are no timestamps. `ORDER BY name` uses plain code-point order rather than the database collation.
- When names are equal, the database can return rows in any order. The listing contract leaves that order open, so the model does not fix a tie order either.
- Path normalisation is modelled only for slashes. Percent-decoding and the optional `(.:format)` suffix are not modelled. A path whose last segment carries a dot, such as `/teams/1.json`, is unrouted in the model, while Rails routes it with a format.
- HEAD requests reach GET routes in Rails. The model has no HEAD verb.
- Routing.ParseDecimal: reads only strings made entirely of decimal digits and gives `None` for every other string, while the integer cast behind `Team.find(params[:id])` reads a leading integer (so "1abc", "+1" and " 1" find row 1 in Rails). Controller actions take the id as a natural number, so requests such as GET /teams/1abc are not tied to the row they reach.
- Form values are modelled as strings or nil. Non-scalar values that `permit` would drop, such as arrays or nested hashes, are not modelled.
- FactoryBot, the RuboCop check and running the seed script are left out. The factory and seed records appear only as constants whose validity is proved.

/** The teams controller and the teams table it reads and writes.

    The table is a map from id to attributes, plus the id sequence that hands
    out fresh keys. Its invariant is that every stored row has an id below the
    next one to hand out and passes the Team validations, because rows only get
    there through a `save` or `update` that validated them.

    Each action returns its outcome: the listing it renders, the template it
    renders with `@team` and the HTTP status, the path it redirects to, or the
    exception that ends it (`ActiveRecord::RecordNotFound` for an unknown id,
    `ActionController::ParameterMissing` for a missing `team` hash).
 */
module Controller {
  import opened Presence
  import opened TeamModel
  import opened TeamOrder
  import Routing

  /** Submitted form values: the nested `team` hash of the request parameters. */
  type Params = map<string, Option<string>>

  /** `permit(:name, :home_city)`. */
  const PermittedKeys: set<string> := {"name", "home_city"}

  /** `params.require(:team)` succeeds when the hash is there and not empty. */
  predicate Supplied(team: Option<Params>)
  {
    team.Some? && team.value != map[]
  }

  /** `permit(:name, :home_city)`: the permitted keys that were supplied, with their values. */
  function Permit(p: Params): (r: Params)
    ensures r.Keys <= PermittedKeys && r.Keys <= p.Keys
    ensures forall k :: k in p && k in PermittedKeys ==> k in r && r[k] == p[k]
  {
    map k | k in p && k in PermittedKeys :: p[k]
  }

  /** Attribute assignment: each supplied key overwrites its attribute, and an
      attribute whose key is absent keeps its value. */
  function Assign(t: Team, attrs: Params): Team
  {
    Team(
      if "name" in attrs then attrs["name"] else t.name,
      if "home_city" in attrs then attrs["home_city"] else t.homeCity)
  }

  /** `Team.new`: a record with no attribute set. */
  const Unset: Team := Team(None, None)

  /** Only the permitted keys have any effect: two submissions that agree on `name`
      and `home_city` build and update teams identically. */
  lemma OnlyPermittedKeysMatter(t: Team, p: Params, q: Params)
    requires forall k :: k in PermittedKeys ==> (k in p <==> k in q)
    requires forall k :: k in PermittedKeys && k in p ==> p[k] == q[k]
    ensures Assign(t, Permit(p)) == Assign(t, Permit(q))
  {
    assert "name" in PermittedKeys && "home_city" in PermittedKeys;
  }

  /** An attribute the submission leaves out keeps its stored value. */
  lemma AssignKeepsUnsupplied(t: Team, p: Params)
    ensures "name" !in p ==> Assign(t, Permit(p)).name == t.name
    ensures "home_city" !in p ==> Assign(t, Permit(p)).homeCity == t.homeCity
    ensures "name" in p ==> Assign(t, Permit(p)).name == p["name"]
    ensures "home_city" in p ==> Assign(t, Permit(p)).homeCity == p["home_city"]
  {
    assert "name" in PermittedKeys && "home_city" in PermittedKeys;
  }

  /** Updating only the name keeps the home city. */
  lemma AssignNameOnly(t: Team, v: Option<string>)
    ensures Assign(t, Permit(map["name" := v])) == Team(v, t.homeCity)
  {
    AssignKeepsUnsupplied(t, map["name" := v]);
  }

  /** A submission with nothing permitted in it changes nothing, and assigning the same submission twice is assigning it once. */
  lemma AssignIdentityAndIdempotent(t: Team, p: Params)
    ensures (forall k :: k in p ==> k !in PermittedKeys) ==> Assign(t, Permit(p)) == t
    ensures Assign(Assign(t, Permit(p)), Permit(p)) == Assign(t, Permit(p))
  {
    if forall k :: k in p ==> k !in PermittedKeys {
      assert "name" !in Permit(p) && "home_city" !in Permit(p);
    }
  }

  /** A new record built from a submission that supplies present name and home
      city is valid; one without a present name is not, whatever else it holds. */
  lemma BuiltTeamValidity(p: Params)
    ensures "name" !in p || Blank(p["name"]) ==> !TeamModel.Valid(Assign(Unset, Permit(p)))
    ensures "home_city" !in p || Blank(p["home_city"]) ==> !TeamModel.Valid(Assign(Unset, Permit(p)))
    ensures "name" in p && "home_city" in p && Present(p["name"]) && Present(p["home_city"])
            ==> TeamModel.Valid(Assign(Unset, Permit(p)))
  {
    AssignKeepsUnsupplied(Unset, p);
  }

  datatype View = ShowView | NewView | EditView

  /** HTTP statuses of rendered responses. */
  const Ok: nat := 200
  const UnprocessableEntity: nat := 422

  datatype Outcome =
    | Listing(rows: seq<Row>)                         // render :index with @teams
    | Rendered(view: View, status: nat, team: Team)   // render a template with @team
    | Redirected(location: string)                    // redirect_to (302 Found)
    | NotFound                                        // ActiveRecord::RecordNotFound (404)
    | BadRequest                                      // ActionController::ParameterMissing (400)

  class TeamsController {
    /** The teams table, by primary key. */
    var teams: map<nat, Team>
    /** The next value of the table's id sequence. */
    var nextId: nat

    ghost predicate Valid()
      reads this
    {
      forall id :: id in teams ==> id < nextId && TeamModel.Valid(teams[id])
    }

    /** An empty table whose id sequence starts at 1. */
    constructor ()
      ensures Valid() && teams == map[] && nextId == 1
    {
      teams := map[];
      nextId := 1;
    }

    /** `index`: every stored team exactly once, sorted by name. */
    method Index() returns (out: Outcome)
      requires Valid()
      ensures out.Listing? && Sorted(out.rows) && DistinctIds(out.rows)
      ensures forall row :: row in out.rows <==> row.id in teams && teams[row.id] == row.team
    {
      out := Listing(OrderByName(teams, nextId));
    }

    /** `show`: the stored team, or NotFound for an unknown id. */
    method Show(id: nat) returns (out: Outcome)
      ensures id in teams ==> out == Rendered(ShowView, Ok, teams[id])
      ensures id !in teams ==> out == NotFound
    {
      if id in teams {
        out := Rendered(ShowView, Ok, teams[id]);
      } else {
        out := NotFound;
      }
    }

    /** `new`: the empty form for a record with no attribute set. */
    method New() returns (out: Outcome)
      ensures out == Rendered(NewView, Ok, Unset)
      ensures !TeamModel.Valid(out.team)
    {
      out := Rendered(NewView, Ok, Unset);
    }

    /** `edit`: the form for the stored team, or NotFound for an unknown id. */
    method Edit(id: nat) returns (out: Outcome)
      ensures id in teams ==> out == Rendered(EditView, Ok, teams[id])
      ensures id !in teams ==> out == NotFound
    {
      if id in teams {
        out := Rendered(EditView, Ok, teams[id]);
      } else {
        out := NotFound;
      }
    }

    /** `create`: builds a team from the permitted values and saves it under a
        fresh id when it is valid; otherwise nothing is stored and the form is
        rendered again with status 422. */
    method Create(team: Option<Params>) returns (out: Outcome)
      requires Valid()
      modifies this
      ensures Valid()
      ensures !Supplied(team) ==> out == BadRequest && teams == old(teams) && nextId == old(nextId)
      ensures Supplied(team) && TeamModel.Valid(Assign(Unset, Permit(team.value))) ==>
        && out == Redirected(Routing.TeamsPath())
        && old(nextId) !in old(teams)
        && teams == old(teams)[old(nextId) := Assign(Unset, Permit(team.value))]
        && nextId == old(nextId) + 1
        && |teams| == |old(teams)| + 1
      ensures Supplied(team) && !TeamModel.Valid(Assign(Unset, Permit(team.value))) ==>
        && out == Rendered(NewView, UnprocessableEntity, Assign(Unset, Permit(team.value)))
        && teams == old(teams) && nextId == old(nextId)
    {
      if !Supplied(team) {
        return BadRequest;
      }
      var t := Assign(Unset, Permit(team.value));
      if TeamModel.Valid(t) {
        teams := teams[nextId := t];
        nextId := nextId + 1;
        out := Redirected(Routing.TeamsPath());
      } else {
        out := Rendered(NewView, UnprocessableEntity, t);
      }
    }

    /** `update`: looks the team up, overlays the permitted values on it and
        validates the merged record; a valid one replaces the stored row, an
        invalid one leaves the row as it was and renders the form with status 422. */
    method Update(id: nat, team: Option<Params>) returns (out: Outcome)
      requires Valid()
      modifies this
      ensures Valid()
      ensures nextId == old(nextId) && teams.Keys == old(teams).Keys && |teams| == |old(teams)|
      ensures forall k :: k in teams && k != id ==> teams[k] == old(teams)[k]
      ensures id !in old(teams) ==> out == NotFound && teams == old(teams)
      ensures id in old(teams) && !Supplied(team) ==> out == BadRequest && teams == old(teams)
      ensures id in old(teams) && Supplied(team) && TeamModel.Valid(Assign(old(teams)[id], Permit(team.value))) ==>
        && out == Redirected(Routing.TeamPath(id))
        && teams == old(teams)[id := Assign(old(teams)[id], Permit(team.value))]
      ensures id in old(teams) && Supplied(team) && !TeamModel.Valid(Assign(old(teams)[id], Permit(team.value))) ==>
        && out == Rendered(EditView, UnprocessableEntity, Assign(old(teams)[id], Permit(team.value)))
        && teams == old(teams)
    {
      if id !in teams {
        return NotFound;
      }
      if !Supplied(team) {
        return BadRequest;
      }
      var merged := Assign(teams[id], Permit(team.value));
      if TeamModel.Valid(merged) {
        teams := teams[id := merged];
        out := Redirected(Routing.TeamPath(id));
      } else {
        out := Rendered(EditView, UnprocessableEntity, merged);
      }
    }

    /** `destroy`: removes exactly the given row and redirects to the listing. */
    method Destroy(id: nat) returns (out: Outcome)
      requires Valid()
      modifies this
      ensures Valid() && nextId == old(nextId)
      ensures id !in old(teams) ==> out == NotFound && teams == old(teams)
      ensures id in old(teams) ==>
        && out == Redirected(Routing.TeamsPath())
        && teams == old(teams) - {id}
        && |teams| == |old(teams)| - 1
    {
      if id !in teams {
        return NotFound;
      }
      teams := teams - {id};
      out := Redirected(Routing.TeamsPath());
    }
  }
}

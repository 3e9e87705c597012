/** Client code that drives the controller through the request sequences of the
    repository's controller and feature specs, using only the actions' contracts.
    Each `assert` is an expectation of those specs, proved for the model. */
module Scenarios {
  import opened Presence
  import opened TeamModel
  import opened TeamOrder
  import opened Controller
  import Routing

  const DogsForm: Params := map["name" := Some("Dogs"), "home_city" := Some("House")]

  /** POST #create with the factory attributes adds one team and redirects to the
      listing; with a nil name nothing is added and the form comes back with 422. */
  method CreateScenarios()
  {
    var c := new TeamsController();
    AssignKeepsUnsupplied(Unset, DogsForm);
    FactoryTeamValid();
    assert Assign(Unset, Permit(DogsForm)) == FactoryTeam;
    var out := c.Create(Some(DogsForm));
    assert out == Redirected(Routing.TeamsPath());
    assert |c.teams| == 1 && c.teams[1] == FactoryTeam;

    var noName := DogsForm["name" := None];
    AssignKeepsUnsupplied(Unset, noName);
    var before := c.teams;
    out := c.Create(Some(noName));
    assert out.Rendered? && out.view == NewView && out.status == UnprocessableEntity;
    assert c.teams == before;

    out := c.Create(None);
    assert out == BadRequest && c.teams == before;
  }

  /** PATCH #update with a new name alone keeps the home city; with a nil name the
      stored name stays; an unknown id is NotFound; the count never changes. */
  method UpdateScenarios()
  {
    var c := new TeamsController();
    AssignKeepsUnsupplied(Unset, DogsForm);
    FactoryTeamValid();
    var out := c.Create(Some(DogsForm));
    assert c.teams == map[1 := FactoryTeam];

    var rename := map["name" := Some("New Name")];
    AssignNameOnly(FactoryTeam, Some("New Name"));
    PresentAt("New Name", 0);
    out := c.Update(1, Some(rename));
    assert out == Redirected(Routing.TeamPath(1));
    assert c.teams[1] == Team(Some("New Name"), Some("House"));
    assert |c.teams| == 1;

    AssignNameOnly(c.teams[1], None);
    out := c.Update(1, Some(map["name" := None]));
    assert out.Rendered? && out.view == EditView && out.status == UnprocessableEntity;
    assert c.teams[1].name == Some("New Name");

    out := c.Update(2, Some(rename));
    assert out == NotFound && |c.teams| == 1;
  }

  /** DELETE #destroy removes the team, the count drops by one, and a second
      delete of the same id is NotFound. */
  method DestroyScenario()
  {
    var c := new TeamsController();
    AssignKeepsUnsupplied(Unset, DogsForm);
    FactoryTeamValid();
    var out := c.Create(Some(DogsForm));
    out := c.Create(Some(DogsForm));
    assert |c.teams| == 2;
    out := c.Destroy(1);
    assert out == Redirected(Routing.TeamsPath());
    assert |c.teams| == 1 && 1 !in c.teams && c.teams[2] == FactoryTeam;
    out := c.Destroy(1);
    assert out == NotFound && |c.teams| == 1;
    out := c.Show(1);
    assert out == NotFound;
  }

  /** Creating "Memphis"/"TN" makes it show up in the listing, as its only row and (ids being distinct) once. */
  method MemphisScenario()
  {
    var c := new TeamsController();
    var form := map["name" := Some("Memphis"), "home_city" := Some("TN")];
    AssignKeepsUnsupplied(Unset, form);
    PresentAt("Memphis", 0);
    PresentAt("TN", 0);
    var out := c.Create(Some(form));
    var memphis := Row(1, Team(Some("Memphis"), Some("TN")));
    out := c.Index();
    assert memphis in out.rows;
    assert forall i :: 0 <= i < |out.rows| ==> out.rows[i] == memphis by {
      forall i | 0 <= i < |out.rows| ensures out.rows[i] == memphis {
        assert out.rows[i] in out.rows;
      }
    }
    assert DistinctIds(out.rows);
  }
}

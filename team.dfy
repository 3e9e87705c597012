/** The Team model: two presence validations, on `name` and on `home_city`. */
module TeamModel {
  import opened Presence

  /** The attributes of a team row that a form can set (id and timestamps are not attributes here). */
  datatype Team = Team(name: Option<string>, homeCity: Option<string>)

  /** The attributes that carry a validation. */
  datatype Field = Name | HomeCity

  /** The value stored under an attribute. */
  function Get(t: Team, f: Field): Option<string>
  {
    match f
    case Name => t.name
    case HomeCity => t.homeCity
  }

  /** `Team#valid?`: both presence validations pass. */
  predicate Valid(t: Team)
  {
    Present(t.name) && Present(t.homeCity)
  }

  /** `Team#errors` after validation: each presence validator that fails adds
      "can't be blank" under its own attribute, and nothing else is added. */
  function Errors(t: Team): (e: map<Field, Message>)
    ensures forall f :: f in e <==> Blank(Get(t, f))
    ensures forall f :: f in e ==> e[f] == CantBeBlank
    ensures e == map[] <==> Valid(t)
  {
    var afterName := if Blank(t.name) then map[Name := CantBeBlank] else map[];
    assert Name in afterName <==> Blank(t.name);
    var e := if Blank(t.homeCity) then afterName[HomeCity := CantBeBlank] else afterName;
    assert HomeCity in e <==> Blank(t.homeCity);
    e
  }

  /** A team is valid exactly when name and home city are both non-nil and each
      holds at least one character that is not white space. */
  lemma ValidIff(t: Team)
    ensures Valid(t) <==>
      && t.name.Some? && (exists i :: 0 <= i < |t.name.value| && !IsSpace(t.name.value[i]))
      && t.homeCity.Some? && (exists j :: 0 <= j < |t.homeCity.value| && !IsSpace(t.homeCity.value[j]))
  {
    PresentMeansSomeNonSpace(t.name);
    PresentMeansSomeNonSpace(t.homeCity);
  }

  /** A nil, empty or white-space-only name makes a team invalid and is reported
      under `name`, whatever the home city holds. */
  lemma BlankNameInvalid(city: Option<string>, s: string)
    requires forall i :: 0 <= i < |s| ==> IsSpace(s[i])
    ensures !Valid(Team(None, city)) && Name in Errors(Team(None, city))
    ensures !Valid(Team(Some(""), city)) && Name in Errors(Team(Some(""), city))
    ensures !Valid(Team(Some(s), city)) && Name in Errors(Team(Some(s), city))
  {
    assert Get(Team(Some(s), city), Name) == Some(s);
  }

  /** A team missing both attributes reports both of them. */
  lemma BothMissingReportsBoth()
    ensures Errors(Team(None, None)) == map[Name := CantBeBlank, HomeCity := CantBeBlank]
  {
  }

  /** The error map names exactly the blank attributes; a present one is never reported. */
  lemma ErrorsExactlyBlank(t: Team)
    ensures Present(t.name) ==> Name !in Errors(t)
    ensures Present(t.homeCity) ==> HomeCity !in Errors(t)
    ensures Present(t.name) && Blank(t.homeCity) ==> Errors(t) == map[HomeCity := CantBeBlank]
    ensures Blank(t.name) && Present(t.homeCity) ==> Errors(t) == map[Name := CantBeBlank]
  {
    assert Get(t, Name) == t.name && Get(t, HomeCity) == t.homeCity;
  }

  /** The team the test factory builds. */
  const FactoryTeam: Team := Team(Some("Dogs"), Some("House"))

  /** The three teams the seed script creates, in creation order. */
  const SeedTeams: seq<Team> := [
    Team(Some("University of Memphis"), Some("Memphis, TN")),
    Team(Some("Duke University"), Some("Durham, NC")),
    Team(Some("Michigan State University"), Some("East Lansing, MI"))
  ]

  /** The factory default team passes validation. */
  lemma FactoryTeamValid()
    ensures Valid(FactoryTeam)
  {
    PresentAt("Dogs", 0);
    PresentAt("House", 0);
  }

  /** Every seed team passes validation, so `create!` does not raise for any of them. */
  lemma SeedTeamsValid()
    ensures |SeedTeams| == 3
    ensures forall i :: 0 <= i < |SeedTeams| ==> Valid(SeedTeams[i])
  {
    PresentAt("University of Memphis", 0);
    PresentAt("Memphis, TN", 0);
    PresentAt("Duke University", 0);
    PresentAt("Durham, NC", 0);
    PresentAt("Michigan State University", 0);
    PresentAt("East Lansing, MI", 0);
  }
}

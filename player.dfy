/** The Player model: a frozen list of position codes, two presence
    validations and one inclusion validation. */
module PlayerModel {
  import opened Presence

  /** `Player::POSITIONS`, the allowed position codes in declaration order. */
  const Positions: seq<string> := ["G", "F"]

  datatype Player = Player(firstName: Option<string>, lastName: Option<string>, position: Option<string>)

  datatype Field = FirstName | LastName | Position

  /** `inclusion: { in: POSITIONS }` without `allow_nil`: nil is not included. */
  predicate Included(v: Option<string>)
  {
    v.Some? && v.value in Positions
  }

  /** `Player#valid?`. */
  predicate Valid(p: Player)
  {
    Present(p.firstName) && Present(p.lastName) && Included(p.position)
  }

  /** `Player#errors` after validation: the two presence validators report
      "can't be blank", the inclusion validator "is not included in the list". */
  function Errors(p: Player): (e: map<Field, Message>)
    ensures FirstName in e <==> Blank(p.firstName)
    ensures LastName in e <==> Blank(p.lastName)
    ensures Position in e <==> !Included(p.position)
    ensures forall f :: f in e ==> e[f] == (if f == Position then NotIncluded else CantBeBlank)
    ensures e == map[] <==> Valid(p)
  {
    var afterFirst := if Blank(p.firstName) then map[FirstName := CantBeBlank] else map[];
    var afterLast := if Blank(p.lastName) then afterFirst[LastName := CantBeBlank] else afterFirst;
    if Included(p.position) then afterLast else afterLast[Position := NotIncluded]
  }

  /** The constant holds exactly the two codes "G" and "F". */
  lemma PositionsExactly()
    ensures |Positions| == 2 && Positions[0] == "G" && Positions[1] == "F"
    ensures forall s :: s in Positions <==> s == "G" || s == "F"
  {
  }

  /** Inclusion is exact string equality with one of the two codes: nil, "", lower
      case and padded codes all fail. */
  lemma IncludedIff(v: Option<string>)
    ensures Included(v) <==> v == Some("G") || v == Some("F")
    ensures !Included(None) && !Included(Some("")) && !Included(Some("g")) && !Included(Some(" G"))
  {
    assert " G" != "G" && " G" != "F";
  }

  /** nil or "" as position makes a player invalid and is reported as an inclusion
      failure, not as a blank: inclusion, not presence, is what runs on `position`. */
  lemma MissingPositionInvalid(first: Option<string>, last: Option<string>)
    ensures !Valid(Player(first, last, None)) && Errors(Player(first, last, None))[Position] == NotIncluded
    ensures !Valid(Player(first, last, Some(""))) && Errors(Player(first, last, Some("")))[Position] == NotIncluded
  {
  }

  /** Each field's error depends on that field alone, and only `position` can get
      the inclusion message. */
  lemma FieldsFailIndependently(p: Player, q: Player)
    ensures p.firstName == q.firstName ==> (FirstName in Errors(p) <==> FirstName in Errors(q))
    ensures p.lastName == q.lastName ==> (LastName in Errors(p) <==> LastName in Errors(q))
    ensures p.position == q.position ==> (Position in Errors(p) <==> Position in Errors(q))
    ensures forall f :: f in Errors(p) && Errors(p)[f] == NotIncluded ==> f == Position
  {
  }

  /** The player the test factory builds. */
  const FactoryPlayer: Player := Player(Some("Bob"), Some("Jobes"), Some("G"))

  /** The nine players the seed script creates, in creation order. */
  const SeedPlayers: seq<Player> := [
    Player(Some("D.J."), Some("Jeffries"), Some("F")),
    Player(Some("Jayden"), Some("Hardaway"), Some("G")),
    Player(Some("Alex"), Some("Lomax"), Some("G")),
    Player(Some("Wendell"), Some("Moore, Jr."), Some("F")),
    Player(Some("Jalen"), Some("Johnson"), Some("F")),
    Player(Some("DJ"), Some("Steward"), Some("G")),
    Player(Some("Aaron"), Some("Henry"), Some("F")),
    Player(Some("Joshua"), Some("Langford"), Some("G")),
    Player(Some("Rocket"), Some("Watts"), Some("G"))
  ]

  /** A player whose two names start with a visible character and whose
      position is a declared code passes validation. */
  lemma ValidWhenVisible(p: Player)
    requires p.firstName.Some? && |p.firstName.value| > 0 && !IsSpace(p.firstName.value[0])
    requires p.lastName.Some? && |p.lastName.value| > 0 && !IsSpace(p.lastName.value[0])
    requires p.position == Some("G") || p.position == Some("F")
    ensures Valid(p) && Errors(p) == map[]
  {
    PresentAt(p.firstName.value, 0);
    PresentAt(p.lastName.value, 0);
  }

  /** The factory player passes validation. */
  lemma FactoryPlayerValid()
    ensures Valid(FactoryPlayer)
  {
    ValidWhenVisible(FactoryPlayer);
  }

  /** Every seed player passes the attribute validations. */
  lemma SeedPlayersValid()
    ensures |SeedPlayers| == 9
    ensures forall i :: 0 <= i < |SeedPlayers| ==> Valid(SeedPlayers[i])
  {
    forall i | 0 <= i < |SeedPlayers|
      ensures Valid(SeedPlayers[i])
    {
      ValidWhenVisible(SeedPlayers[i]);
    }
  }
}

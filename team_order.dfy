/** `Team.order(:name)`: the rows of the teams table listed by ascending name.

    The table is keyed by id. The listing is built by inserting the rows one id
    at a time into an already sorted sequence; rows with equal names may come in
    any order in the database, so what is promised about a listing is only that
    it is sorted and holds every row exactly once.
 */
module TeamOrder {
  import opened Presence
  import opened TeamModel
  import opened Lexicographic

  /** One row of the teams table: its primary key and its attributes. */
  datatype Row = Row(id: nat, team: Team)

  /** Ascending order on names, with nil names last as in an ascending SQL sort
      that puts nulls last. Stored teams always have a name, so the nil case only
      keeps the order total. */
  predicate NameLe(a: Team, b: Team)
  {
    match (a.name, b.name)
    case (Some(x), Some(y)) => StrLe(x, y)
    case (Some(_), None) => true
    case (None, Some(_)) => false
    case (None, None) => true
  }

  /** Any two teams are comparable by name. */
  lemma NameLeTotal(a: Team, b: Team)
    ensures NameLe(a, b) || NameLe(b, a)
  {
    if a.name.Some? && b.name.Some? {
      StrLeTotal(a.name.value, b.name.value);
    }
  }

  /** The order by name is transitive. */
  lemma NameLeTransitive(a: Team, b: Team, c: Team)
    requires NameLe(a, b) && NameLe(b, c)
    ensures NameLe(a, c)
  {
    if a.name.Some? && b.name.Some? && c.name.Some? {
      StrLeTransitive(a.name.value, b.name.value, c.name.value);
    }
  }

  /** Every earlier row's name sorts before or equal to every later row's. */
  predicate Sorted(rows: seq<Row>)
  {
    forall i, j :: 0 <= i < j < |rows| ==> NameLe(rows[i].team, rows[j].team)
  }

  /** No id occurs twice. */
  predicate DistinctIds(rows: seq<Row>)
  {
    forall i, j :: 0 <= i < j < |rows| ==> rows[i].id != rows[j].id
  }

  /** Places `x` after every row whose name does not sort after it. */
  function Insert(rows: seq<Row>, x: Row): (r: seq<Row>)
    requires Sorted(rows)
    ensures Sorted(r)
    ensures multiset(r) == multiset(rows) + multiset{x}
  {
    if rows == [] then [x]
    else if !NameLe(rows[0].team, x.team) then
      NameLeTotal(x.team, rows[0].team);
      forall j | 0 < j < |rows|
        ensures NameLe(x.team, rows[j].team)
      {
        NameLeTransitive(x.team, rows[0].team, rows[j].team);
      }
      [x] + rows
    else
      var rest := Insert(rows[1..], x);
      assert rows == [rows[0]] + rows[1..];
      forall y | y in rest
        ensures NameLe(rows[0].team, y.team)
      {
        assert y in multiset(rest);
      }
      [rows[0]] + rest
  }

  /** Inserting a row whose id is new keeps the ids distinct. */
  lemma {:induction false} InsertKeepsDistinct(rows: seq<Row>, x: Row)
    requires Sorted(rows) && DistinctIds(rows)
    requires forall i :: 0 <= i < |rows| ==> rows[i].id != x.id
    ensures DistinctIds(Insert(rows, x))
  {
    if rows != [] && NameLe(rows[0].team, x.team) {
      InsertKeepsDistinct(rows[1..], x);
      var rest := Insert(rows[1..], x);
      forall j | 0 <= j < |rest|
        ensures rows[0].id != rest[j].id
      {
        assert rest[j] in multiset(rest);
        assert rest[j] in multiset(rows[1..]) || rest[j] == x;
      }
    }
  }

  /** The rows of `teams` with id below `bound`, sorted by name. */
  function OrderByName(teams: map<nat, Team>, bound: nat): (r: seq<Row>)
    ensures Sorted(r) && DistinctIds(r)
    ensures forall row :: row in r <==> row.id < bound && row.id in teams && teams[row.id] == row.team
    decreases bound
  {
    if bound == 0 then []
    else
      var rest := OrderByName(teams, bound - 1);
      if bound - 1 in teams then
        var x := Row(bound - 1, teams[bound - 1]);
        InsertKeepsDistinct(rest, x);
        var r := Insert(rest, x);
        assert forall row :: row in r <==> row in rest || row == x by {
          forall row ensures row in r <==> row in multiset(rest) + multiset{x} {
          }
        }
        r
      else
        rest
  }

  /** The seed teams as the seed script stores them, under ids 1 to 3. */
  const SeedTable: map<nat, Team> := map[1 := SeedTeams[0], 2 := SeedTeams[1], 3 := SeedTeams[2]]

  /** Ordered by name, the seeded table lists Duke, then Michigan State, then Memphis. */
  lemma SeedListing()
    ensures OrderByName(SeedTable, 4) == [Row(2, SeedTeams[1]), Row(3, SeedTeams[2]), Row(1, SeedTeams[0])]
  {
    var memphis, duke, msu := Row(1, SeedTeams[0]), Row(2, SeedTeams[1]), Row(3, SeedTeams[2]);
    assert 0 !in SeedTable;
    assert OrderByName(SeedTable, 1) == [];
    assert OrderByName(SeedTable, 2) == [memphis];
    assert !NameLe(memphis.team, duke.team);
    assert OrderByName(SeedTable, 3) == [duke, memphis];
    assert NameLe(duke.team, msu.team) && !NameLe(memphis.team, msu.team);
    assert Insert([memphis], msu) == [msu, memphis];
    assert Insert([duke, memphis], msu) == [duke] + Insert([memphis], msu);
  }
}

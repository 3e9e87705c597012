/** The route table: the root redirect and the seven team routes, matched in
    declaration order, first match wins; plus the named path helpers.

    A request path is cut into its non-empty `/`-separated segments, which is
    how the router normalises a path (a leading slash is implied, repeated
    slashes collapse and a trailing slash is dropped). A dynamic segment such as
    `:id` matches one whole segment that contains no `.` and no `?`.
 */
module Routing {
  import opened Presence

  datatype Verb = GET | POST | PUT | PATCH | DELETE

  /** The seven actions of the teams controller. */
  datatype Action = Index | Create | New | Show | Edit | Update | Destroy

  /** Where a route sends a request. */
  datatype Target =
    | ToTeams(action: Action)
    | RedirectTo(location: string, status: nat)

  /** One segment of a route pattern: literal text, or a named parameter. */
  datatype Segment = Lit(text: string) | Param(name: string)

  datatype Route = Route(verb: Verb, pattern: seq<Segment>, target: Target)

  /** The outcome of recognising a request: its target and the bound path parameters. */
  datatype Dispatched = Dispatched(target: Target, params: map<string, string>)

  /** `redirect('teams')` answers 301 with the relative path resolved against the application root. */
  const MovedPermanently: nat := 301

  /** The routes in declaration order. */
  const Routes: seq<Route> := [
    Route(GET, [], RedirectTo("/teams", MovedPermanently)),
    Route(GET, [Lit("teams")], ToTeams(Index)),
    Route(POST, [Lit("teams")], ToTeams(Create)),
    Route(GET, [Lit("teams"), Lit("new")], ToTeams(New)),
    Route(GET, [Lit("teams"), Param("id")], ToTeams(Show)),
    Route(GET, [Lit("teams"), Param("id"), Lit("edit")], ToTeams(Edit)),
    Route(PATCH, [Lit("teams"), Param("id")], ToTeams(Update)),
    Route(DELETE, [Lit("teams"), Param("id")], ToTeams(Destroy))
  ]

  // ---------------------------------------------------------------- segments

  /** The length of the segment text at the start of `p`, up to the first `/`. */
  function SegmentLength(p: string): (k: nat)
    ensures k <= |p|
    ensures forall i :: 0 <= i < k ==> p[i] != '/'
    ensures k < |p| ==> p[k] == '/'
  {
    if p == [] || p[0] == '/' then 0 else 1 + SegmentLength(p[1..])
  }

  /** A well-formed path segment: non-empty and free of `/`. */
  predicate IsSegment(s: string)
  {
    s != [] && '/' !in s
  }

  /** The non-empty segments of a path, in order. */
  function Segments(path: string): (segs: seq<string>)
    ensures forall i :: 0 <= i < |segs| ==> IsSegment(segs[i])
    decreases |path|
  {
    if path == [] then []
    else if path[0] == '/' then Segments(path[1..])
    else
      var k := SegmentLength(path);
      [path[..k]] + Segments(path[k..])
  }

  /** The canonical path of a list of segments: each one preceded by a slash. */
  function JoinPath(segs: seq<string>): string
  {
    if segs == [] then "" else "/" + segs[0] + JoinPath(segs[1..])
  }

  lemma {:induction false} SegmentLengthOfPrefix(s: string, rest: string)
    requires '/' !in s
    requires rest == [] || rest[0] == '/'
    ensures SegmentLength(s + rest) == |s|
    decreases |s|
  {
    if s != [] {
      assert (s + rest)[1..] == s[1..] + rest;
      SegmentLengthOfPrefix(s[1..], rest);
    }
  }

  /** Cutting a joined path gives the segments back. */
  lemma {:induction false} SegmentsOfJoin(segs: seq<string>)
    requires forall i :: 0 <= i < |segs| ==> IsSegment(segs[i])
    ensures Segments(JoinPath(segs)) == segs
    decreases |segs|
  {
    if segs != [] {
      var s, rest := segs[0], JoinPath(segs[1..]);
      assert rest == [] || rest[0] == '/';
      SegmentsOfJoin(segs[1..]);
      var p := "/" + s + rest;
      assert p[1..] == s + rest;
      SegmentLengthOfPrefix(s, rest);
      assert (s + rest)[..|s|] == s && (s + rest)[|s|..] == rest;
    }
  }

  // ---------------------------------------------------------------- matching

  /** A dynamic segment accepts one whole segment without `.` or `?`. */
  predicate IsParamValue(s: string)
  {
    IsSegment(s) && '.' !in s && '?' !in s
  }

  predicate SegmentMatches(p: Segment, s: string)
  {
    match p
    case Lit(t) => s == t
    case Param(_) => IsParamValue(s)
  }

  /** A route matches a request when the verb is the route's and every pattern segment matches its path segment. */
  predicate Matches(r: Route, v: Verb, segs: seq<string>)
  {
    && r.verb == v
    && |r.pattern| == |segs|
    && forall i :: 0 <= i < |segs| ==> SegmentMatches(r.pattern[i], segs[i])
  }

  /** The parameter bindings of a matched pattern. */
  function Bindings(pattern: seq<Segment>, segs: seq<string>): map<string, string>
    requires |pattern| == |segs|
  {
    if pattern == [] then map[]
    else
      var rest := Bindings(pattern[1..], segs[1..]);
      match pattern[0]
      case Lit(_) => rest
      case Param(n) => rest[n := segs[0]]
  }

  /** Literal segments bind nothing; each parameter binds its own segment. */
  lemma BindingsOfRoutes(segs: seq<string>)
    ensures |segs| == 0 ==> Bindings(Routes[0].pattern, segs) == map[]
    ensures |segs| == 1 ==> Bindings(Routes[1].pattern, segs) == map[] == Bindings(Routes[2].pattern, segs)
    ensures |segs| == 2 ==> Bindings(Routes[3].pattern, segs) == map[]
    ensures |segs| == 2 ==> Bindings(Routes[4].pattern, segs) == map["id" := segs[1]]
    ensures |segs| == 2 ==> Bindings(Routes[6].pattern, segs) == map["id" := segs[1]]
    ensures |segs| == 2 ==> Bindings(Routes[7].pattern, segs) == map["id" := segs[1]]
    ensures |segs| == 3 ==> Bindings(Routes[5].pattern, segs) == map["id" := segs[1]]
  {
    var teams, id, newLit, edit := Lit("teams"), Param("id"), Lit("new"), Lit("edit");
    if |segs| == 1 {
      assert Bindings([teams], segs) == Bindings([], segs[1..]);
    } else if |segs| == 2 {
      var tail := segs[1..];
      assert Bindings([id], tail) == Bindings([], tail[1..])["id" := tail[0]];
      assert Bindings([newLit], tail) == Bindings([], tail[1..]);
      assert Bindings([teams, id], segs) == Bindings([id], tail);
      assert Bindings([teams, newLit], segs) == Bindings([newLit], tail);
    } else if |segs| == 3 {
      var tail := segs[1..];
      assert Bindings([edit], tail[1..]) == Bindings([], tail[2..]);
      assert Bindings([id, edit], tail) == Bindings([edit], tail[1..])["id" := tail[0]];
      assert Bindings([teams, id, edit], segs) == Bindings([id, edit], tail);
    }
  }

  /** The index of the first route at or after `from` that matches. */
  function FirstMatch(rs: seq<Route>, v: Verb, segs: seq<string>, from: nat): (r: Option<nat>)
    requires from <= |rs|
    ensures r.Some? ==> from <= r.value < |rs| && Matches(rs[r.value], v, segs)
    ensures r.Some? ==> forall j :: from <= j < r.value ==> !Matches(rs[j], v, segs)
    ensures r.None? ==> forall j :: from <= j < |rs| ==> !Matches(rs[j], v, segs)
    decreases |rs| - from
  {
    if from == |rs| then None
    else if Matches(rs[from], v, segs) then Some(from)
    else FirstMatch(rs, v, segs, from + 1)
  }

  /** Recognises a segmented request against a route list: the first matching route wins. */
  function Recognize(rs: seq<Route>, v: Verb, segs: seq<string>): Option<Dispatched>
  {
    match FirstMatch(rs, v, segs, 0)
    case None => None
    case Some(k) => Some(Dispatched(rs[k].target, Bindings(rs[k].pattern, segs)))
  }

  /** Recognises a request path against a route list. */
  function DispatchWith(rs: seq<Route>, v: Verb, path: string): Option<Dispatched>
  {
    Recognize(rs, v, Segments(path))
  }

  /** Recognises a request against the application's routes. */
  function Dispatch(v: Verb, path: string): Option<Dispatched>
  {
    DispatchWith(Routes, v, path)
  }

  // ---------------------------------------------------------------- reference

  /** What the route table means, written out case by case. */
  function Expected(v: Verb, segs: seq<string>): Option<Dispatched>
  {
    if segs == [] then
      if v == GET then Some(Dispatched(RedirectTo("/teams", MovedPermanently), map[])) else None
    else if segs[0] != "teams" then None
    else if |segs| == 1 then
      if v == GET then Some(Dispatched(ToTeams(Index), map[]))
      else if v == POST then Some(Dispatched(ToTeams(Create), map[]))
      else None
    else if |segs| == 2 then
      if v == GET && segs[1] == "new" then Some(Dispatched(ToTeams(New), map[]))
      else if !IsParamValue(segs[1]) then None
      else if v == GET then Some(Dispatched(ToTeams(Show), map["id" := segs[1]]))
      else if v == PATCH then Some(Dispatched(ToTeams(Update), map["id" := segs[1]]))
      else if v == DELETE then Some(Dispatched(ToTeams(Destroy), map["id" := segs[1]]))
      else None
    else if |segs| == 3 && segs[2] == "edit" && v == GET && IsParamValue(segs[1]) then
      Some(Dispatched(ToTeams(Edit), map["id" := segs[1]]))
    else None
  }

  /** The first matching declared route is the `k`th when it matches and no earlier one does. */
  lemma FirstMatchIs(v: Verb, segs: seq<string>, k: nat)
    requires k < |Routes| && Matches(Routes[k], v, segs)
    requires forall j :: 0 <= j < k ==> !Matches(Routes[j], v, segs)
    ensures FirstMatch(Routes, v, segs, 0) == Some(k)
  {
  }

  /** No declared route matches when none of the given ones can. */
  lemma NoMatch(v: Verb, segs: seq<string>)
    requires forall j :: 0 <= j < |Routes| ==> !Matches(Routes[j], v, segs)
    ensures FirstMatch(Routes, v, segs, 0) == None
  {
  }

  lemma RecognizeRoot(v: Verb)
    ensures Recognize(Routes, v, []) == Expected(v, [])
  {
    if v == GET {
      FirstMatchIs(v, [], 0);
    } else {
      NoMatch(v, []);
    }
  }

  lemma RecognizeCollection(v: Verb, segs: seq<string>)
    requires |segs| == 1
    ensures Recognize(Routes, v, segs) == Expected(v, segs)
  {
    assert !Matches(Routes[0], v, segs);
    BindingsOfRoutes(segs);
    if segs[0] == "teams" && v == GET {
      FirstMatchIs(v, segs, 1);
    } else if segs[0] == "teams" && v == POST {
      assert !Matches(Routes[1], v, segs);
      FirstMatchIs(v, segs, 2);
    } else {
      assert !Matches(Routes[1], v, segs);
      assert !Matches(Routes[2], v, segs);
      assert !Matches(Routes[3], v, segs);
      assert !Matches(Routes[4], v, segs);
      assert !Matches(Routes[5], v, segs);
      assert !Matches(Routes[6], v, segs);
      assert !Matches(Routes[7], v, segs);
      NoMatch(v, segs);
    }
  }

  lemma RecognizeMember(v: Verb, segs: seq<string>)
    requires |segs| == 2
    ensures Recognize(Routes, v, segs) == Expected(v, segs)
  {
    assert !Matches(Routes[0], v, segs);
    assert !Matches(Routes[1], v, segs);
    assert !Matches(Routes[2], v, segs);
    assert !Matches(Routes[5], v, segs);
    BindingsOfRoutes(segs);
    var isTeams := segs[0] == "teams";
    if isTeams && v == GET && segs[1] == "new" {
      FirstMatchIs(v, segs, 3);
    } else if isTeams && IsParamValue(segs[1]) && v in {GET, PATCH, DELETE} {
      assert !Matches(Routes[3], v, segs);
      var k := if v == GET then 4 else if v == PATCH then 6 else 7;
      assert !Matches(Routes[4], v, segs) || k == 4;
      assert !Matches(Routes[6], v, segs) || k == 6;
      FirstMatchIs(v, segs, k);
    } else {
      assert !Matches(Routes[3], v, segs);
      assert !Matches(Routes[4], v, segs);
      assert !Matches(Routes[6], v, segs);
      assert !Matches(Routes[7], v, segs);
      NoMatch(v, segs);
    }
  }

  lemma RecognizeMemberEdit(v: Verb, segs: seq<string>)
    requires |segs| == 3
    ensures Recognize(Routes, v, segs) == Expected(v, segs)
  {
    assert !Matches(Routes[0], v, segs);
    assert !Matches(Routes[1], v, segs);
    assert !Matches(Routes[2], v, segs);
    assert !Matches(Routes[3], v, segs);
    assert !Matches(Routes[4], v, segs);
    assert !Matches(Routes[6], v, segs);
    assert !Matches(Routes[7], v, segs);
    if segs[0] == "teams" && segs[2] == "edit" && v == GET && IsParamValue(segs[1]) {
      BindingsOfRoutes(segs);
      FirstMatchIs(v, segs, 5);
    } else {
      assert !Matches(Routes[5], v, segs);
      NoMatch(v, segs);
    }
  }

  lemma RecognizeLonger(v: Verb, segs: seq<string>)
    requires |segs| > 3
    ensures Recognize(Routes, v, segs) == Expected(v, segs)
  {
    assert forall j :: 0 <= j < |Routes| ==> |Routes[j].pattern| <= 3;
    NoMatch(v, segs);
  }

  /** First-match dispatch over the declared routes agrees with the case-by-case
      reading for every verb and every path. */
  lemma DispatchMeansExpected(v: Verb, path: string)
    ensures Dispatch(v, path) == Expected(v, Segments(path))
  {
    var segs := Segments(path);
    if |segs| == 0 {
      assert segs == [];
      RecognizeRoot(v);
    } else if |segs| == 1 {
      RecognizeCollection(v, segs);
    } else if |segs| == 2 {
      RecognizeMember(v, segs);
    } else if |segs| == 3 {
      RecognizeMemberEdit(v, segs);
    } else {
      RecognizeLonger(v, segs);
    }
  }

  // ---------------------------------------------------------------- helpers

  /** Decimal digits of a natural number, most significant first (`Integer#to_s`). */
  function Decimal(n: nat): (s: string)
    ensures |s| > 0
    ensures forall i :: 0 <= i < |s| ==> '0' <= s[i] <= '9'
    decreases n
  {
    if n < 10 then [DigitChar(n)] else Decimal(n / 10) + [DigitChar(n % 10)]
  }

  function DigitChar(d: nat): (c: char)
    requires d < 10
    ensures '0' <= c <= '9'
  {
    ('0' as int + d) as char
  }

  /** The value of a string of decimal digits; `None` if it is empty or holds any other character. */
  function ParseDecimal(s: string): (r: Option<nat>)
    ensures r.Some? <==> |s| > 0 && forall i :: 0 <= i < |s| ==> '0' <= s[i] <= '9'
    decreases |s|
  {
    if |s| == 0 || !('0' <= s[|s| - 1] <= '9') then None
    else
      var d := (s[|s| - 1] as int - '0' as int) as nat;
      if |s| == 1 then Some(d)
      else
        match ParseDecimal(s[..|s| - 1])
        case None => None
        case Some(v) => Some(10 * v + d)
  }

  /** Reading back the digits of a number gives the number. */
  lemma {:induction false} ParseDecimalOfDecimal(n: nat)
    ensures ParseDecimal(Decimal(n)) == Some(n)
    decreases n
  {
    if n >= 10 {
      ParseDecimalOfDecimal(n / 10);
      var s := Decimal(n);
      assert s[..|s| - 1] == Decimal(n / 10);
    }
  }

  /** `to_param` of a record id: its decimal digits. */
  function ToParam(id: nat): string
  {
    Decimal(id)
  }

  /** The param of an id is a single path segment, and never the literal `new`. */
  lemma ToParamIsParamValue(id: nat)
    ensures IsParamValue(ToParam(id)) && ToParam(id) != "new"
    ensures ParseDecimal(ToParam(id)) == Some(id)
  {
    var s := ToParam(id);
    assert '0' <= s[0] <= '9';
    ParseDecimalOfDecimal(id);
  }

  function RootPath(): string { "/" }
  function TeamsPath(): string { "/teams" }
  function NewTeamPath(): string { "/teams/new" }
  function TeamPath(id: nat): string { "/teams/" + ToParam(id) }
  function EditTeamPath(id: nat): string { "/teams/" + ToParam(id) + "/edit" }

  /** The helpers' paths cut into the segments they were built from. */
  lemma RootPathSegments()
    ensures Segments(RootPath()) == []
  {
    assert RootPath()[1..] == "";
  }

  lemma TeamsPathSegments()
    ensures Segments(TeamsPath()) == ["teams"]
  {
    assert JoinPath(["teams"]) == TeamsPath();
    SegmentsOfJoin(["teams"]);
  }

  lemma NewTeamPathSegments()
    ensures Segments(NewTeamPath()) == ["teams", "new"]
  {
    assert JoinPath(["teams", "new"]) == NewTeamPath();
    SegmentsOfJoin(["teams", "new"]);
  }

  lemma TeamPathSegments(id: nat)
    ensures Segments(TeamPath(id)) == ["teams", ToParam(id)]
  {
    ToParamIsParamValue(id);
    var p := ToParam(id);
    assert ["teams", p][1..] == [p];
    assert JoinPath([p]) == "/" + p;
    assert JoinPath(["teams", p]) == "/" + "teams" + ("/" + p);
    assert "/" + "teams" + ("/" + p) == TeamPath(id);
    SegmentsOfJoin(["teams", p]);
  }

  lemma EditTeamPathSegments(id: nat)
    ensures Segments(EditTeamPath(id)) == ["teams", ToParam(id), "edit"]
  {
    ToParamIsParamValue(id);
    var p := ToParam(id);
    assert ["teams", p, "edit"][1..] == [p, "edit"];
    assert [p, "edit"][1..] == ["edit"];
    assert JoinPath(["edit"]) == "/edit";
    assert JoinPath([p, "edit"]) == "/" + p + "/edit";
    assert JoinPath(["teams", p, "edit"]) == "/" + "teams" + ("/" + p + "/edit");
    assert "/" + "teams" + ("/" + p + "/edit") == EditTeamPath(id);
    SegmentsOfJoin(["teams", p, "edit"]);
  }

  /** The root path redirects, permanently, to the teams listing. */
  lemma RootRedirectsToTeams()
    ensures Dispatch(GET, RootPath()) == Some(Dispatched(RedirectTo(TeamsPath(), MovedPermanently), map[]))
  {
    RootPathSegments();
    DispatchMeansExpected(GET, RootPath());
  }

  /** `GET /teams` is index and `POST /teams` is create. */
  lemma TeamsPathRoutes()
    ensures Dispatch(GET, TeamsPath()) == Some(Dispatched(ToTeams(Index), map[]))
    ensures Dispatch(POST, TeamsPath()) == Some(Dispatched(ToTeams(Create), map[]))
  {
    TeamsPathSegments();
    DispatchMeansExpected(GET, TeamsPath());
    DispatchMeansExpected(POST, TeamsPath());
  }

  /** `GET /teams/new` is the new action, although the show route matches its
      segments too: the new route is declared first. */
  lemma NewTeamPathRoutesToNew()
    ensures Dispatch(GET, NewTeamPath()) == Some(Dispatched(ToTeams(New), map[]))
  {
    NewTeamPathSegments();
    DispatchMeansExpected(GET, NewTeamPath());
  }

  /** Both the new route and the show route match the segments of `new_team_path`
      (`NewTeamPathSegments`); only order decides between them. */
  lemma NewAndShowBothMatch()
    ensures Matches(Routes[3], GET, ["teams", "new"]) && Matches(Routes[4], GET, ["teams", "new"])
  {
  }

  /** The same routes with show declared before new. */
  const ShowBeforeNew: seq<Route> := Routes[..3] + [Routes[4], Routes[3]] + Routes[5..]

  lemma ShowFirstTakesNew()
    ensures Recognize(ShowBeforeNew, GET, ["teams", "new"]) == Some(Dispatched(ToTeams(Show), map["id" := "new"]))
  {
    var segs: seq<string> := ["teams", "new"];
    assert !Matches(ShowBeforeNew[0], GET, segs);
    assert !Matches(ShowBeforeNew[1], GET, segs);
    assert !Matches(ShowBeforeNew[2], GET, segs);
    assert ShowBeforeNew[3] == Routes[4] && Matches(Routes[4], GET, segs);
    BindingsOfRoutes(segs);
  }

  /** Declaring show before new would make `GET /teams/new` a show of the id "new". */
  lemma OrderMatters()
    ensures DispatchWith(ShowBeforeNew, GET, NewTeamPath()) == Some(Dispatched(ToTeams(Show), map["id" := "new"]))
  {
    NewTeamPathSegments();
    ShowFirstTakesNew();
  }

  /** Show, update and destroy all recognise `team_path(id)`, binding `id` to the
      id's param, which reads back as the same id. */
  lemma TeamPathRoundTrip(id: nat)
    ensures Dispatch(GET, TeamPath(id)) == Some(Dispatched(ToTeams(Show), map["id" := ToParam(id)]))
    ensures Dispatch(PATCH, TeamPath(id)) == Some(Dispatched(ToTeams(Update), map["id" := ToParam(id)]))
    ensures Dispatch(DELETE, TeamPath(id)) == Some(Dispatched(ToTeams(Destroy), map["id" := ToParam(id)]))
    ensures ParseDecimal(ToParam(id)) == Some(id)
  {
    TeamPathSegments(id);
    ToParamIsParamValue(id);
    DispatchMeansExpected(GET, TeamPath(id));
    DispatchMeansExpected(PATCH, TeamPath(id));
    DispatchMeansExpected(DELETE, TeamPath(id));
  }

  /** Edit recognises `edit_team_path(id)`, binding `id` to the id's param. */
  lemma EditTeamPathRoundTrip(id: nat)
    ensures Dispatch(GET, EditTeamPath(id)) == Some(Dispatched(ToTeams(Edit), map["id" := ToParam(id)]))
    ensures ParseDecimal(ToParam(id)) == Some(id)
  {
    EditTeamPathSegments(id);
    ToParamIsParamValue(id);
    DispatchMeansExpected(GET, EditTeamPath(id));
  }

  /** Requests that no declared route covers are not recognised: PUT and POST on a
      member (only PATCH is declared for updates) and DELETE on the collection. */
  lemma UndeclaredRequests(id: nat)
    ensures Dispatch(PUT, TeamPath(id)) == None
    ensures Dispatch(POST, TeamPath(id)) == None
    ensures Dispatch(DELETE, TeamsPath()) == None
  {
    TeamPathSegments(id);
    TeamsPathSegments();
    DispatchMeansExpected(PUT, TeamPath(id));
    DispatchMeansExpected(POST, TeamPath(id));
    DispatchMeansExpected(DELETE, TeamsPath());
  }

  lemma RootOnlyAnswersGet(v: Verb)
    requires v != GET
    ensures Dispatch(v, RootPath()) == None
  {
    RootPathSegments();
    DispatchMeansExpected(v, RootPath());
  }

  lemma NestedPathsUnrouted(v: Verb, id: nat, rest: string)
    requires IsSegment(rest) && rest != "edit"
    ensures Dispatch(v, TeamPath(id) + "/" + rest) == None
  {
    var p := ToParam(id);
    ToParamIsParamValue(id);
    assert JoinPath([rest]) == "/" + rest;
    assert JoinPath(["teams", p, rest]) == "/" + "teams" + ("/" + p + ("/" + rest));
    assert "/" + "teams" + ("/" + p + ("/" + rest)) == TeamPath(id) + "/" + rest;
    SegmentsOfJoin(["teams", p, rest]);
    DispatchMeansExpected(v, TeamPath(id) + "/" + rest);
  }
}

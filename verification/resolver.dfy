/** The cascading option resolver `get_options` (app.py:25-46): from the loaded
    data and the selections made so far, the choices each dropdown offers. */
module Resolver {
  import opened Wrappers
  import opened AssocList
  import opened Hierarchy

  /** The first entry of each dropdown, meaning "nothing chosen yet". */
  const YearSentinel: string := "Select Year"
  const LeagueSentinel: string := "Select League"
  const TeamSentinel: string := "Select Team"

  /** Python's `sel and sel != sentinel`: `None` and `""` are falsy, and the
      sentinel is not a choice either. */
  predicate IsChosen(sel: Option<string>, sentinel: string) {
    sel.Some? && sel.value != "" && sel.value != sentinel
  }

  /** The four lists `get_options` returns. */
  datatype Options = Options(
    years: seq<string>,
    leagues: seq<string>,
    teams: seq<string>,
    names: seq<(string, string)>)

  const NoOptions: Options := Options([], [], [], [])

  /** `data[year][league]`, raising `KeyError` at the first absent key. */
  function TeamsAt(d: Data, year: string, league: string): (r: Result<Teams, LookupError>)
    ensures r.Success? <==> year in Keys(d) && league in Keys(Get(d, year).value)
    ensures r.Failure? && year !in Keys(d) ==> r.error == KeyError(year)
    ensures r.Failure? && year in Keys(d) ==> r.error == KeyError(league)
    ensures r.Success? ==> (league, r.value) in Get(d, year).value
  {
    var leagues :- Get(d, year);
    Get(leagues, league)
  }

  /** `data[year][league][team]`, raising `KeyError` at the first absent key. */
  function RosterAt(d: Data, year: string, league: string, team: string): (r: Result<Roster, LookupError>)
    ensures r.Success? <==> TeamsAt(d, year, league).Success? && team in Keys(TeamsAt(d, year, league).value)
    ensures r.Failure? && TeamsAt(d, year, league).Failure? ==> r.error == TeamsAt(d, year, league).error
    ensures r.Failure? && TeamsAt(d, year, league).Success? ==> r.error == KeyError(team)
    ensures r.Success? ==> (team, r.value) in TeamsAt(d, year, league).value
  {
    var teams :- TeamsAt(d, year, league);
    Get(teams, team)
  }

  /** `[(player["nameJ"], player["nameE"]) for player in players]`. */
  function PlayerNames(players: Roster): (names: seq<(string, string)>)
    ensures |names| == |players|
    ensures forall i :: 0 <= i < |players| ==> names[i] == (players[i].nameJ, players[i].nameE)
  {
    if players == [] then []
    else [(players[0].nameJ, players[0].nameE)] + PlayerNames(players[1..])
  }

  /** Every key that `get_options` indexes with exists at its level, so that
      no `KeyError` is raised. Unchosen selections are never used as keys. */
  ghost predicate Resolvable(d: Data, year: Option<string>, league: Option<string>, team: Option<string>) {
    IsChosen(year, YearSentinel) ==>
      && year.value in Keys(d)
      && (IsChosen(league, LeagueSentinel) ==>
            && TeamsAt(d, year.value, league.value).Success?
            && (IsChosen(team, TeamSentinel) ==>
                  RosterAt(d, year.value, league.value, team.value).Success?))
  }

  /** `get_options(data, year, league, team)`. Absent data yields four empty
      lists; otherwise each level is listed only once every selection above it
      is chosen, and indexing with a chosen but absent key raises `KeyError`. */
  function GetOptions(data: Option<Data>, year: Option<string>, league: Option<string>, team: Option<string>): (r: Result<Options, LookupError>)
    ensures data.None? ==> r == Success(NoOptions)
    ensures data.Some? ==> (r.Success? <==> Resolvable(data.value, year, league, team))
    ensures r.Success? && data.Some? ==> r.value.years == Keys(data.value)
    ensures r.Success? && !IsChosen(year, YearSentinel) ==> r.value.leagues == []
    ensures r.Success? && data.Some? && IsChosen(year, YearSentinel) ==>
              r.value.leagues == Keys(Get(data.value, year.value).value)
    ensures r.Success? && !(IsChosen(year, YearSentinel) && IsChosen(league, LeagueSentinel)) ==>
              r.value.teams == []
    ensures r.Success? && data.Some? && IsChosen(year, YearSentinel) && IsChosen(league, LeagueSentinel) ==>
              r.value.teams == Keys(TeamsAt(data.value, year.value, league.value).value)
    ensures r.Success? && !(IsChosen(year, YearSentinel) && IsChosen(league, LeagueSentinel) && IsChosen(team, TeamSentinel)) ==>
              r.value.names == []
    ensures r.Success? && data.Some? && IsChosen(year, YearSentinel) && IsChosen(league, LeagueSentinel) && IsChosen(team, TeamSentinel) ==>
              r.value.names == PlayerNames(RosterAt(data.value, year.value, league.value, team.value).value)
  {
    match data
    case None => Success(NoOptions)
    case Some(d) =>
      var years := Keys(d);
      if !IsChosen(year, YearSentinel) then Success(Options(years, [], [], []))
      else
        var byLeague :- Get(d, year.value);
        var leagues := Keys(byLeague);
        if !IsChosen(league, LeagueSentinel) then Success(Options(years, leagues, [], []))
        else
          var byTeam :- Get(byLeague, league.value);
          var teams := Keys(byTeam);
          if !IsChosen(team, TeamSentinel) then Success(Options(years, leagues, teams, []))
          else
            var players :- Get(byTeam, team.value);
            Success(Options(years, leagues, teams, PlayerNames(players)))
  }

  /** The `KeyError` names the first chosen key that is absent, in the order
      year, league, team. */
  lemma KeyErrorNamesFirstMissingKey(d: Data, year: Option<string>, league: Option<string>, team: Option<string>)
    ensures IsChosen(year, YearSentinel) && year.value !in Keys(d) ==>
              GetOptions(Some(d), year, league, team) == Failure(KeyError(year.value))
    ensures IsChosen(year, YearSentinel) && year.value in Keys(d) && IsChosen(league, LeagueSentinel)
              && TeamsAt(d, year.value, league.value).Failure? ==>
              GetOptions(Some(d), year, league, team) == Failure(KeyError(league.value))
    ensures IsChosen(year, YearSentinel) && IsChosen(league, LeagueSentinel) && IsChosen(team, TeamSentinel)
              && TeamsAt(d, year.value, league.value).Success? && RosterAt(d, year.value, league.value, team.value).Failure? ==>
              GetOptions(Some(d), year, league, team) == Failure(KeyError(team.value))
  {
  }

  /** `years` is the same whatever is selected. */
  lemma YearsIgnoreSelection(d: Data, y1: Option<string>, l1: Option<string>, t1: Option<string>,
                             y2: Option<string>, l2: Option<string>, t2: Option<string>)
    requires GetOptions(Some(d), y1, l1, t1).Success?
    requires GetOptions(Some(d), y2, l2, t2).Success?
    ensures GetOptions(Some(d), y1, l1, t1).value.years == GetOptions(Some(d), y2, l2, t2).value.years
  {
  }

  /** A successful resolution with no leagues on offer offers no teams and no
      players either: choosing a league under an empty year would have raised. */
  lemma NoLeaguesNoTeams(data: Option<Data>, year: Option<string>, league: Option<string>, team: Option<string>)
    requires GetOptions(data, year, league, team).Success?
    requires GetOptions(data, year, league, team).value.leagues == []
    ensures GetOptions(data, year, league, team).value.teams == []
    ensures GetOptions(data, year, league, team).value.names == []
  {
  }

  /** The successive calls in `main` agree: resolving with more selections
      leaves the lists of the levels above unchanged. */
  lemma CascadeAgrees(d: Data, year: Option<string>, league: Option<string>, team: Option<string>)
    requires GetOptions(Some(d), year, league, team).Success?
    ensures GetOptions(Some(d), year, league, None)
              == Success(GetOptions(Some(d), year, league, team).value.(names := []))
    ensures GetOptions(Some(d), year, None, None)
              == Success(GetOptions(Some(d), year, league, team).value.(teams := [], names := []))
    ensures GetOptions(Some(d), None, None, None)
              == Success(GetOptions(Some(d), year, league, team).value.(leagues := [], teams := [], names := []))
  {
  }

  /** Over well-formed data every listed level repeats no key. */
  lemma OptionsDistinct(d: Data, year: Option<string>, league: Option<string>, team: Option<string>)
    requires WellFormed(d)
    requires GetOptions(Some(d), year, league, team).Success?
    ensures var o := GetOptions(Some(d), year, league, team).value;
      && (forall i, j :: 0 <= i < j < |o.years| ==> o.years[i] != o.years[j])
      && (forall i, j :: 0 <= i < j < |o.leagues| ==> o.leagues[i] != o.leagues[j])
      && (forall i, j :: 0 <= i < j < |o.teams| ==> o.teams[i] != o.teams[j])
  {
    KeysDistinct(d);
    if IsChosen(year, YearSentinel) {
      var ls := Get(d, year.value).value;
      var i :| 0 <= i < |d| && d[i] == (year.value, ls);
      KeysDistinct(ls);
      if IsChosen(league, LeagueSentinel) {
        var ts := TeamsAt(d, year.value, league.value).value;
        var j :| 0 <= j < |ls| && ls[j] == (league.value, ts);
        KeysDistinct(ts);
      }
    }
  }
}

/** The selection rules of `main` (app.py:48-136) that sit on top of the
    resolver: the player dropdown's labels, the gate on the "Display Profile"
    button, and finding the selected player again from its label. */
module Selection {
  import opened Wrappers
  import opened AssocList
  import opened Hierarchy
  import opened Resolver

  const PlayerSentinel: string := "Select Player"

  /** `f"{nameJ} ({nameE})"`. */
  function Label(name: (string, string)): string {
    name.0 + " (" + name.1 + ")"
  }

  /** A label is the Japanese name, then " (", then the romanised name, then
      ")", and nothing else. */
  lemma LabelShape(name: (string, string))
    ensures var text := Label(name);
      && |text| == |name.0| + |name.1| + 3
      && text[..|name.0|] == name.0
      && text[|name.0|..|name.0| + 2] == " ("
      && text[|name.0| + 2..|text| - 1] == name.1
      && text[|text| - 1] == ')'
  {
  }

  function PlayerLabel(p: PlayerRecord): string {
    Label((p.nameJ, p.nameE))
  }

  /** The label of every name, in order. */
  function Labels(names: seq<(string, string)>): (ls: seq<string>)
    ensures |ls| == |names|
    ensures forall i :: 0 <= i < |names| ==> ls[i] == Label(names[i])
  {
    if names == [] then [] else [Label(names[0])] + Labels(names[1..])
  }

  /** The player dropdown's options: nothing at all when there are no names,
      otherwise the sentinel followed by one label per name. */
  function NameOptions(names: seq<(string, string)>): (opts: seq<string>)
    ensures names == [] <==> opts == []
    ensures names != [] ==> |opts| == |names| + 1 && opts[0] == PlayerSentinel
    ensures names != [] ==> forall i :: 0 <= i < |names| ==> opts[i + 1] == Label(names[i])
  {
    if names == [] then [] else [PlayerSentinel] + Labels(names)
  }

  /** `all_selected`: no dropdown shows its sentinel. The comparison is plain
      `!=`, so a `None` (the value of a dropdown with no options) passes. */
  predicate AllSelected(year: Option<string>, league: Option<string>, team: Option<string>, name: Option<string>) {
    && year != Some(YearSentinel)
    && league != Some(LeagueSentinel)
    && team != Some(TeamSentinel)
    && name != Some(PlayerSentinel)
  }

  /** Position of the first player whose label equals the selected name. */
  function LabelIndex(players: Roster, selected: Option<string>): (r: Option<nat>)
    ensures r.None? <==> forall i :: 0 <= i < |players| ==> Some(PlayerLabel(players[i])) != selected
    ensures r.Some? ==> r.value < |players| && Some(PlayerLabel(players[r.value])) == selected
    ensures r.Some? ==> forall j :: 0 <= j < r.value ==> Some(PlayerLabel(players[j])) != selected
  {
    if players == [] then None
    else if Some(PlayerLabel(players[0])) == selected then Some(0)
    else match LabelIndex(players[1..], selected)
      case None => None
      case Some(i) => Some(i + 1)
  }

  /** The lookup-back loop: scan the roster and stop at the first player whose
      label equals the selected name exactly. */
  method FindSelectedPlayer(players: Roster, selected: Option<string>) returns (selectedPlayer: Option<PlayerRecord>)
    ensures selectedPlayer.None? <==> forall i :: 0 <= i < |players| ==> Some(PlayerLabel(players[i])) != selected
    ensures selectedPlayer.Some? ==>
              exists i :: 0 <= i < |players| && selectedPlayer.value == players[i]
                && Some(PlayerLabel(players[i])) == selected
                && forall j :: 0 <= j < i ==> Some(PlayerLabel(players[j])) != selected
    ensures selectedPlayer == match LabelIndex(players, selected)
                              case None => None
                              case Some(i) => Some(players[i])
  {
    selectedPlayer := None;
    var i := 0;
    while i < |players|
      invariant 0 <= i <= |players|
      invariant forall j :: 0 <= j < i ==> Some(PlayerLabel(players[j])) != selected
    {
      if Some(PlayerLabel(players[i])) == selected {
        selectedPlayer := Some(players[i]);
        return;
      }
      i := i + 1;
    }
  }

  /** What pressing the button retrieves: `data[year][league][team]` indexed
      directly, then the first player whose label is the selected name. */
  function ChosenPlayer(d: Data, year: string, league: string, team: string, name: Option<string>): (r: Result<Option<PlayerRecord>, LookupError>)
    ensures r.Success? <==> RosterAt(d, year, league, team).Success?
    ensures r.Success? && r.value.Some? ==> Some(PlayerLabel(r.value.value)) == name
    ensures r.Success? ==> (r.value.None? <==> LabelIndex(RosterAt(d, year, league, team).value, name).None?)
    ensures r.Success? && r.value.Some? ==>
              var players := RosterAt(d, year, league, team).value;
              exists i :: 0 <= i < |players| && r.value.value == players[i]
                && forall j :: 0 <= j < i ==> Some(PlayerLabel(players[j])) != name
  {
    var players :- RosterAt(d, year, league, team);
    match LabelIndex(players, name)
    case None => Success(None)
    case Some(i) => Success(Some(players[i]))
  }

  /** `st.selectbox` returns one of its options, or `None` when it has none. */
  predicate SelectboxValue(sel: Option<string>, options: seq<string>) {
    if options == [] then sel == None else sel.Some? && sel.value in options
  }

  /** The year, league and team dropdowns of `main` each hold their sentinel or
      one of the options computed from the selections above them. */
  predicate ValidPicks(d: Data, year: string, league: string, team: string) {
    && (year == YearSentinel || year in Keys(d))
    && (league == LeagueSentinel ||
        var r := GetOptions(Some(d), Some(year), None, None);
        r.Success? && league in r.value.leagues)
    && (team == TeamSentinel ||
        var r := GetOptions(Some(d), Some(year), Some(league), None);
        r.Success? && team in r.value.teams)
  }

  /** The player dropdown's options after the three picks (app.py:94-95). */
  function PlayerOptions(d: Data, year: string, league: string, team: string): seq<string> {
    match GetOptions(Some(d), Some(year), Some(league), Some(team))
    case Success(o) => NameOptions(o.names)
    case Failure(_) => []
  }

  /** Picks made through the dropdowns never make `get_options` raise: every
      chosen key was offered, so it exists at its level. */
  lemma {:induction false} PicksNeverRaise(d: Data, year: string, league: string, team: string)
    requires ValidPicks(d, year, league, team)
    ensures GetOptions(Some(d), Some(year), None, None).Success?
    ensures GetOptions(Some(d), Some(year), Some(league), None).Success?
    ensures GetOptions(Some(d), Some(year), Some(league), Some(team)).Success?
  {
    var y, l, t := Some(year), Some(league), Some(team);
    assert Resolvable(d, y, None, None);
    if IsChosen(y, YearSentinel) && IsChosen(l, LeagueSentinel) {
      assert league in GetOptions(Some(d), y, None, None).value.leagues;
      assert Resolvable(d, y, l, None);
      if IsChosen(t, TeamSentinel) {
        assert team in GetOptions(Some(d), y, l, None).value.teams;
      }
    } else if IsChosen(y, YearSentinel) {
      assert Resolvable(d, y, l, None);
    }
  }

  /** With dropdown-made picks and none of year, league and team at its
      sentinel, all three are chosen and the roster path exists, so the
      direct indexing of the button handler cannot raise. */
  lemma {:induction false} OpenGateRosterExists(d: Data, year: string, league: string, team: string)
    requires ValidPicks(d, year, league, team)
    requires year != YearSentinel && league != LeagueSentinel && team != TeamSentinel
    ensures IsChosen(Some(year), YearSentinel) && IsChosen(Some(league), LeagueSentinel)
    ensures RosterAt(d, year, league, team).Success?
  {
    PicksNeverRaise(d, year, league, team);
    assert league in GetOptions(Some(d), Some(year), None, None).value.leagues;
    assert team in GetOptions(Some(d), Some(year), Some(league), None).value.teams;
  }

  /** What the gate guarantees for dropdown-made picks: it is open exactly when
      year and league are chosen, the team is not its sentinel and the player
      dropdown does not hold its sentinel. */
  lemma GateMeansChosen(d: Data, year: string, league: string, team: string, name: Option<string>)
    requires ValidPicks(d, year, league, team)
    ensures AllSelected(Some(year), Some(league), Some(team), name)
            <==> && IsChosen(Some(year), YearSentinel)
                 && IsChosen(Some(league), LeagueSentinel)
                 && team != TeamSentinel
                 && name != Some(PlayerSentinel)
  {
    if AllSelected(Some(year), Some(league), Some(team), name) {
      OpenGateRosterExists(d, year, league, team);
    }
  }

  /** No label is the player sentinel: every label ends in ')'. */
  lemma LabelIsNotSentinel(name: (string, string))
    ensures Label(name) != PlayerSentinel
  {
    LabelShape(name);
    assert PlayerSentinel[|PlayerSentinel| - 1] == 'r';
  }

  /** Picking any player's option leaves the gate's player clause true. */
  lemma PlayerOptionPassesGate(names: seq<(string, string)>, k: nat)
    requires k < |names|
    ensures NameOptions(names)[k + 1] != PlayerSentinel
  {
    LabelIsNotSentinel(names[k]);
  }

  /** A picked player label always belongs to some player of the roster. */
  lemma PickedLabelMatches(players: Roster, name: string)
    requires name in NameOptions(PlayerNames(players))
    requires name != PlayerSentinel
    ensures LabelIndex(players, Some(name)).Some?
  {
    var opts := NameOptions(PlayerNames(players));
    var k :| 0 <= k < |opts| && opts[k] == name;
    assert Some(PlayerLabel(players[k - 1])) == Some(name);
  }

  /** Pressing the enabled button after picking through the dropdowns never
      raises, and finds a player exactly when the player dropdown holds a
      value; that player's label is the picked one. */
  lemma {:induction false} ButtonFindsPickedPlayer(d: Data, year: string, league: string, team: string, name: Option<string>)
    requires ValidPicks(d, year, league, team)
    requires SelectboxValue(name, PlayerOptions(d, year, league, team))
    requires AllSelected(Some(year), Some(league), Some(team), name)
    ensures ChosenPlayer(d, year, league, team, name).Success?
    ensures name.Some? <==> ChosenPlayer(d, year, league, team, name).value.Some?
  {
    OpenGateRosterExists(d, year, league, team);
    if name.Some? {
      var players := RosterAt(d, year, league, team).value;
      var r := GetOptions(Some(d), Some(year), Some(league), Some(team));
      assert r.Success?;
      assert IsChosen(Some(team), TeamSentinel);
      assert PlayerOptions(d, year, league, team) == NameOptions(PlayerNames(players));
      PickedLabelMatches(players, name.value);
    }
  }

  /** Picking the option of the k-th player finds the first player carrying
      the same label: the k-th one itself unless an earlier player shares it. */
  lemma PickingOptionFindsEarliest(players: Roster, k: nat)
    requires k < |players|
    ensures var opts := NameOptions(PlayerNames(players));
      var r := LabelIndex(players, Some(opts[k + 1]));
      && r.Some?
      && r.value <= k
      && PlayerLabel(players[r.value]) == PlayerLabel(players[k])
      && ((forall j :: 0 <= j < k ==> PlayerLabel(players[j]) != PlayerLabel(players[k])) ==> r.value == k)
  {
    var opts := NameOptions(PlayerNames(players));
    assert opts[k + 1] == PlayerLabel(players[k]);
  }

  /** Labels are not injective: two different name pairs can share a label, and
      then the later player cannot be reached through the dropdown. */
  lemma LabelCollision()
    ensures Label(("x (y", "z")) == Label(("x", "y (z"))
    ensures var p := PlayerRecord("x (y", "z", []);
      var q := PlayerRecord("x", "y (z", []);
      LabelIndex([p, q], Some(NameOptions(PlayerNames([p, q]))[2])) == Some(0)
  {
    var p := PlayerRecord("x (y", "z", []);
    var q := PlayerRecord("x", "y (z", []);
    assert PlayerLabel(p) == PlayerLabel(q);
    PickingOptionFindsEarliest([p, q], 1);
  }

  /** An empty roster offers no player options, the player dropdown then holds
      `None`, and the gate still opens; the button then finds nobody. */
  lemma EmptyRosterOpensGate(d: Data, year: string, league: string, team: string)
    requires IsChosen(Some(year), YearSentinel) && IsChosen(Some(league), LeagueSentinel) && IsChosen(Some(team), TeamSentinel)
    requires RosterAt(d, year, league, team) == Success([])
    ensures PlayerOptions(d, year, league, team) == []
    ensures SelectboxValue(None, PlayerOptions(d, year, league, team))
    ensures AllSelected(Some(year), Some(league), Some(team), None)
    ensures ChosenPlayer(d, year, league, team, None) == Success(None)
  {
    assert Resolvable(d, Some(year), Some(league), Some(team));
  }
}

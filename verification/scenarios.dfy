/** Worked examples on a one-player data set. */
module Scenarios {
  import opened Wrappers
  import opened AssocList
  import opened Hierarchy
  import opened Resolver
  import opened Selection

  const Yamada: PlayerRecord := PlayerRecord("山田", "Yamada", ["id1", "id2"])
  const Sample: Data := [("2023", [("Central", [("Giants", [Yamada])])])]

  /** All three levels chosen: the one player's names are listed. */
  lemma FullSelectionListsPlayer()
    ensures GetOptions(Some(Sample), Some("2023"), Some("Central"), Some("Giants"))
              == Success(Options(["2023"], ["Central"], ["Giants"], [("山田", "Yamada")]))
  {
    assert Get(Sample, "2023") == Success([("Central", [("Giants", [Yamada])])]);
    assert RosterAt(Sample, "2023", "Central", "Giants") == Success([Yamada]);
    assert PlayerNames([Yamada]) == [("山田", "Yamada")];
    assert IsChosen(Some("2023"), YearSentinel);
    assert IsChosen(Some("Central"), LeagueSentinel);
    assert IsChosen(Some("Giants"), TeamSentinel);
    assert Keys(Sample) == ["2023"];
    assert Keys(Get(Sample, "2023").value) == ["Central"];
    assert Keys(TeamsAt(Sample, "2023", "Central").value) == ["Giants"];
  }

  /** A chosen league that the year does not hold raises `KeyError`; it does
      not narrow the lists to empty. */
  lemma AbsentLeagueRaises()
    ensures GetOptions(Some(Sample), Some("2023"), Some("Pacific"), Some("Giants"))
              == Failure(KeyError("Pacific"))
  {
    assert "Pacific" !in Keys(Get(Sample, "2023").value);
  }

  /** The exact label finds the player; a label with extra whitespace or a
      different romanised name does not. */
  lemma LabelMatchIsExact()
    ensures ChosenPlayer(Sample, "2023", "Central", "Giants", Some("山田 (Yamada)")) == Success(Some(Yamada))
    ensures ChosenPlayer(Sample, "2023", "Central", "Giants", Some("山田  (Yamada)")) == Success(None)
    ensures ChosenPlayer(Sample, "2023", "Central", "Giants", Some("山田 (Yamado)")) == Success(None)
  {
    assert PlayerLabel(Yamada) == "山田 (Yamada)";
    assert PlayerLabel(Yamada) != "山田  (Yamada)";
    assert PlayerLabel(Yamada) != "山田 (Yamado)";
  }

  /** Picking the sample's year, league, team and player through the dropdowns
      meets every precondition of the button lemma, and the button finds Yamada. */
  lemma ButtonOnSample()
    ensures ValidPicks(Sample, "2023", "Central", "Giants")
    ensures SelectboxValue(Some("山田 (Yamada)"), PlayerOptions(Sample, "2023", "Central", "Giants"))
    ensures AllSelected(Some("2023"), Some("Central"), Some("Giants"), Some("山田 (Yamada)"))
    ensures ChosenPlayer(Sample, "2023", "Central", "Giants", Some("山田 (Yamada)")) == Success(Some(Yamada))
  {
    FullSelectionListsPlayer();
    assert GetOptions(Some(Sample), Some("2023"), None, None).value.leagues == ["Central"];
    assert GetOptions(Some(Sample), Some("2023"), Some("Central"), None).value.teams == ["Giants"];
    assert PlayerOptions(Sample, "2023", "Central", "Giants") == NameOptions([("山田", "Yamada")]);
    assert NameOptions([("山田", "Yamada")])[1] == "山田 (Yamada)";
    LabelMatchIsExact();
  }
}

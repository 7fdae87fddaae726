# Cascading dropdowns of the non-pb identifier browser

The browser (`app.py`) loads a nested JSON table — year → league → team → list
of player records — and lets the user narrow it down through four dependent
dropdowns (year, league, team, player) before pressing "Display Profile". This
project models the pure logic behind those dropdowns:

- `get_options` (the cascading option resolver), which lists the choices of
  every level consistent with the selections made above it;
- the player dropdown's labels `"{nameJ} ({nameE})"` with their leading
  `"Select Player"` entry;
- the `all_selected` gate on the button;
- the lookup-back loop that finds the selected player again from its label.

Modules:

- `Wrappers` (`wrappers.dfy`): `Option` (Python's `None`) and `Result` (a
  raised `KeyError`).
- `AssocList` (`assoc_list.dfy`): a Python `dict` with string keys as an
  insertion-ordered sequence of entries; `Keys` is `list(d.keys())`, `Get` is
  `d[k]` and fails with `KeyError(k)` when `k` is absent.
- `Hierarchy` (`hierarchy.dfy`): player records and the four-level data set;
  `WellFormed` says no level repeats a key, as a `dict` guarantees.
- `Resolver` (`resolver.dfy`): `get_options` and its properties.
- `Selection` (`selection.dfy`): labels, the gate, the lookup-back, and how
  `main` chains the four dropdowns.
- `Scenarios` (`scenarios.dfy`): worked examples on a one-player data set.

A selection is an `Option<string>`: `None` is Python's `None`. It is the default
of `get_options`' parameters, and `st.selectbox` returns it when its option list
is empty. A level counts as chosen (`Resolver.IsChosen`) when its value is
truthy and is not the level's sentinel (`"Select Year"`, `"Select League"`,
`"Select Team"`).

A chosen key that is absent from its level raises `KeyError` (app.py:33, 37,
43); `get_options` never narrows the lists to empty for it.
`Resolver.GetOptions` returns `Failure(KeyError(key))` for the first absent
chosen key, and `Scenarios.AbsentLeagueRaises` shows this on the sample data.
When the dropdowns drive the calls, this cannot happen: every chosen key was
offered, so it exists (`Selection.PicksNeverRaise`).

The button handler finds the player through `Selection.ChosenPlayer`, which
uses `Selection.LabelIndex`; `Selection.FindSelectedPlayer` is the loop itself,
proved to return the same player as `LabelIndex` designates.

## Model

| member | source | states |
|---|---|---|
| AssocList.Keys | app.py:29 | the key list has one entry per table entry, and its i-th element is the key of the i-th entry, so insertion order is kept |
| AssocList.Find | app.py:33 | no position exactly when no entry holds the key; otherwise the position of an entry holding it, with no earlier entry holding it |
| AssocList.Get | app.py:33 | `d[k]` fails exactly when `k` is not among the keys, and the failure is `KeyError(k)`; on success the returned value is stored under `k` |
| AssocList.GetEntry | app.py:33 | in a table without repeated keys, looking up the key of any entry gives exactly that entry's value |
| AssocList.KeysDistinct | app.py:29 | a table without repeated keys lists no key twice |
| Resolver.TeamsAt | app.py:37 | `data[year][league]` succeeds exactly when the year exists and the league exists under it; otherwise the `KeyError` names the year if it is absent, else the league; on success the value is the teams table stored under the league in the year's table |
| Resolver.RosterAt | app.py:43 | `data[year][league][team]` succeeds exactly when all three keys exist along the path; otherwise the `KeyError` names the first absent key; on success the value is the roster stored under the team in that teams table |
| Resolver.PlayerNames | app.py:44 | one name pair per player, same length as the roster, and the i-th pair is `(nameJ, nameE)` of the i-th player |
| Resolver.GetOptions | app.py:25-46 | absent data gives four empty lists; otherwise the call succeeds exactly when every chosen key exists at its level; `years` is the top-level keys in order; `leagues` is empty unless the year is chosen, and is then the year's keys in order; `teams` is empty unless year and league are chosen, and is then that league's keys; `names` is empty unless all three are chosen, and is then the roster's name pairs |
| Resolver.KeyErrorNamesFirstMissingKey | app.py:32-43 | the raised `KeyError` names the year if the chosen year is absent, else the league if the chosen league is absent, else the team |
| Resolver.YearsIgnoreSelection | app.py:29 | any two successful calls on the same data list the same years, whatever is selected |
| Resolver.NoLeaguesNoTeams | app.py:31-42 | a successful call that lists no leagues lists no teams and no players either |
| Resolver.CascadeAgrees | app.py:70-94 | the four successive calls of `main` agree: adding a selection below leaves every list above it unchanged |
| Resolver.OptionsDistinct | app.py:29-37 | over well-formed data the years, leagues and teams lists repeat no key |
| Selection.LabelShape | app.py:95 | the label is `nameJ`, then `" ("`, then `nameE`, then `")"`, and nothing else |
| Selection.GateMeansChosen | app.py:103-106 | for dropdown-made picks the gate is open exactly when year and league are chosen, the team is not its sentinel and the player dropdown does not hold its sentinel |
| Selection.LabelIsNotSentinel | app.py:95 | no player label equals `"Select Player"`, since every label ends in `")"` |
| Selection.PlayerOptionPassesGate | app.py:95-106 | every player option after the sentinel differs from `"Select Player"`, so picking any player keeps the gate's player clause true |
| Selection.Labels | app.py:95 | one label per name, same order, the i-th being `nameJ + " (" + nameE + ")"` of the i-th name |
| Selection.NameOptions | app.py:95 | the player options are empty exactly when there are no names; otherwise they are `"Select Player"` followed by one label per name in order, with length one more than the names |
| Selection.LabelIndex | app.py:112-117 | no index exactly when no player's label equals the selection; otherwise the index of a player whose label equals it, with no earlier player matching |
| Selection.FindSelectedPlayer | app.py:111-117 | the scan finds nobody exactly when no label matches; otherwise it returns the earliest roster player whose label equals the selection, the same player `LabelIndex` designates |
| Selection.ChosenPlayer | app.py:111-117 | the button's lookup raises exactly when the roster path does not exist; a found player's label equals the selected name, no earlier roster player's label does, and nobody is found exactly when no label matches |
| Selection.PicksNeverRaise | app.py:69-94 | when each dropdown holds its sentinel or an option computed from the picks above it, none of the `get_options` calls in `main` raises |
| Selection.OpenGateRosterExists | app.py:103-111 | with dropdown-made picks and no sentinel among year, league and team, year and league are chosen and `data[year][league][team]` exists, so the button's indexing cannot raise |
| Selection.PickedLabelMatches | app.py:95-117 | any non-sentinel option of the player dropdown is the label of some roster player, so the lookup-back finds one |
| Selection.ButtonFindsPickedPlayer | app.py:103-117 | with dropdown-made picks and the gate open, the button's roster lookup never raises, and a player is found exactly when the player dropdown holds a value |
| Selection.PickingOptionFindsEarliest | app.py:95-117 | picking the option of the k-th player finds the earliest player with the same label, at or before k, and exactly the k-th player when no earlier player shares its label |
| Selection.LabelCollision | app.py:114-117 | two different name pairs can have the same label, and then the option of the second player finds the first |
| Selection.EmptyRosterOpensGate | app.py:95-106 | an empty chosen roster gives an empty player dropdown, which holds `None`; the gate then opens and the button finds nobody |
| Scenarios.FullSelectionListsPlayer | app.py:40-46 | with year, league and team chosen in the one-player data set, the names list holds that player's name pair |
| Scenarios.AbsentLeagueRaises | app.py:36-37 | a chosen league absent under the chosen year raises `KeyError` for that league |
| Scenarios.ButtonOnSample | app.py:69-117 | on the sample data, picking "2023", "Central", "Giants" and the player's label through the dropdowns is a valid pick sequence, opens the gate, and the button finds that player |
| Scenarios.LabelMatchIsExact | app.py:113-117 | the exact label finds the player; a label with extra whitespace, or with a different romanised name, finds nobody |

## Left out

- `load_css` (app.py:8-10): reads a stylesheet and injects it into the page; presentation only.
- `load_data` (app.py:12-23): file reading and JSON parsing, with errors shown through `st.error`. The model starts from the parsed data, and `None` stands for a failed load.
- Well-typed input: player entries are records with `nameJ`, `nameE` and `ids`, and every level is a table. A JSON file whose entries lack these keys, or whose levels are not objects, would raise in the code; such files are not modelled.
- Duplicate keys in the JSON file: `json.load` keeps one entry per key, so the data the code sees never repeats a key. `Hierarchy.WellFormed` states this, and the lemmas that need it assume it.
- The image display (app.py:119-136): building the image URLs from `ids[0]` and `ids[1]`, the HTTP requests, image decoding and the catch-all error message are network and foreign calls.
- Streamlit widgets (`st.radio`, `st.selectbox`, `st.button`, titles): their state belongs to the framework. Only what `st.selectbox` returns is modelled (`Selection.SelectboxValue`): one of its options, or `None` when it has none.
- Purity and repeatability of `get_options` need no lemma: every member here is a mathematical function of its arguments.

/** The loaded data set: year -> league -> team -> list of player records, each
    level an insertion-ordered table as produced by `json.load`. */
module Hierarchy {
  import opened AssocList

  /** One player entry: Japanese name, romanised name and the ids of the two
      profile images. */
  datatype PlayerRecord = PlayerRecord(nameJ: string, nameE: string, ids: seq<string>)

  type Roster = seq<PlayerRecord>
  type Teams = Table<Roster>
  type Leagues = Table<Teams>
  type Data = Table<Leagues>

  /** Every level is a `dict`: no table anywhere repeats a key. */
  ghost predicate WellFormed(d: Data) {
    && DistinctKeys(d)
    && (forall i :: 0 <= i < |d| ==> DistinctKeys(d[i].1))
    && (forall i, j :: 0 <= i < |d| && 0 <= j < |d[i].1| ==> DistinctKeys(d[i].1[j].1))
  }
}

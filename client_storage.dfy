/** The browser's `localStorage`, restricted to what the detection flow keeps in it:
    string keys mapped to JSON-encoded lists of result strings. The JSON encoding and
    decoding are taken to be inverse to each other, so a slot holds the list itself. */
module ClientStorage {
  import opened Wrappers

  type Storage = map<string, seq<string>>

  /** The single slot shared by the submission handler and the results page. */
  const PredictionResultsKey: string := "predictionResults"

  /** `localStorage.setItem(key, JSON.stringify(value))` */
  function SetItem(s: Storage, key: string, value: seq<string>): (r: Storage)
    ensures key in r && r[key] == value
    ensures forall k :: k != key ==> (k in r <==> k in s)
    ensures forall k :: k != key && k in s ==> r[k] == s[k]
  {
    s[key := value]
  }

  /** `localStorage.getItem(key)` followed by `JSON.parse`; absent keys give `None`. */
  function GetItem(s: Storage, key: string): (r: Option<seq<string>>)
    ensures r.Some? <==> key in s
    ensures r.Some? ==> r.value == s[key]
  {
    if key in s then Some(s[key]) else None
  }
}

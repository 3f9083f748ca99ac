/** The results page: the stored list of result strings and the figures derived from it
    by substring matching. */
module DetectionResults {
  import opened Wrappers
  import opened ClientStorage

  const DetectedMarker: string := "Detected"
  const NormalMarker: string := "No"
  const PendingLabel: string := "Pending"

  /** The confidence score shown, a fixed 87 % that no result influences. */
  const ConfidenceScore: nat := 87

  /** `sub` occurs in `s` starting at position `i`. */
  predicate OccursAt(s: string, sub: string, i: int)
  {
    0 <= i && i + |sub| <= |s| && s[i..i + |sub|] == sub
  }

  /** `s.includes(sub)` */
  predicate Includes(s: string, sub: string)
    decreases |s|
  {
    if |sub| > |s| then false
    else s[..|sub|] == sub || (|s| > 0 && Includes(s[1..], sub))
  }

  /** `includes` finds `sub` exactly when it occurs at some position. */
  lemma {:induction false} IncludesIffOccurs(s: string, sub: string)
    ensures Includes(s, sub) <==> exists i :: OccursAt(s, sub, i)
    decreases |s|
  {
    if |sub| > |s| {
      assert forall i :: !OccursAt(s, sub, i);
    } else if s[..|sub|] == sub {
      assert OccursAt(s, sub, 0);
    } else {
      assert |s| > 0;
      IncludesIffOccurs(s[1..], sub);
      if Includes(s[1..], sub) {
        var i :| OccursAt(s[1..], sub, i);
        assert s[i + 1..i + 1 + |sub|] == s[1..][i..i + |sub|];
        assert OccursAt(s, sub, i + 1);
      } else {
        forall i | OccursAt(s, sub, i) ensures false {
          assert i != 0;
          assert s[1..][i - 1..i - 1 + |sub|] == s[i..i + |sub|];
          assert OccursAt(s[1..], sub, i - 1);
        }
      }
    }
  }

  /** A string without the first character of `sub` does not include `sub`. */
  lemma MissingFirstCharacter(s: string, sub: string)
    requires |sub| > 0 && sub[0] !in s
    ensures !Includes(s, sub)
  {
  }

  /** The positions whose result contains `marker`. */
  ghost function MatchingPositions(results: seq<string>, marker: string): set<int>
  {
    set i | 0 <= i < |results| && Includes(results[i], marker)
  }

  /** Appending one result adds its position exactly when it contains `marker`. */
  lemma MatchingPositionsAppend(init: seq<string>, last: string, marker: string)
    ensures |MatchingPositions(init + [last], marker)|
         == |MatchingPositions(init, marker)| + (if Includes(last, marker) then 1 else 0)
  {
    var results := init + [last];
    var before := MatchingPositions(init, marker);
    assert forall i :: 0 <= i < |init| ==> results[i] == init[i];
    assert |init| !in before;
    if Includes(last, marker) {
      assert MatchingPositions(results, marker) == before + {|init|};
    } else {
      assert MatchingPositions(results, marker) == before;
    }
  }

  /** `results.filter(r => r.includes(marker))`: one entry per position whose result
      contains `marker`, each such result kept exactly as often as it occurs. */
  function Matching(results: seq<string>, marker: string): (r: seq<string>)
    ensures |r| == |MatchingPositions(results, marker)|
    ensures |r| <= |results|
    ensures forall x :: x in r ==> x in results && Includes(x, marker)
    ensures forall i :: 0 <= i < |results| && Includes(results[i], marker) ==> results[i] in r
    ensures |r| == |results| <==> forall i :: 0 <= i < |results| ==> Includes(results[i], marker)
  {
    if results == [] then []
    else
      var init := results[..|results| - 1];
      var last := results[|results| - 1];
      var rest := Matching(init, marker);
      assert results == init + [last];
      assert forall i :: 0 <= i < |init| ==> init[i] == results[i];
      MatchingPositionsAppend(init, last, marker);
      if Includes(last, marker) then rest + [last] else rest
  }

  /** The filter keeps every result containing `marker` exactly as often as it occurs,
      and no other result. */
  lemma {:induction false} MatchingMultiplicity(results: seq<string>, marker: string, x: string)
    ensures multiset(Matching(results, marker))[x] == if Includes(x, marker) then multiset(results)[x] else 0
  {
    if results != [] {
      var init := results[..|results| - 1];
      var last := results[|results| - 1];
      assert results == init + [last];
      MatchingMultiplicity(init, marker, x);
      assert multiset(results) == multiset(init) + multiset{last};
      var rest := Matching(init, marker);
      if Includes(last, marker) {
        assert Matching(results, marker) == rest + [last];
        assert multiset(rest + [last]) == multiset(rest) + multiset{last};
      } else {
        assert Matching(results, marker) == rest;
      }
    }
  }

  /** `results.some(r => r.includes(marker))` */
  function AnyIncludes(results: seq<string>, marker: string): (b: bool)
    ensures b <==> exists i :: 0 <= i < |results| && Includes(results[i], marker)
  {
    if results == [] then false
    else if Includes(results[0], marker) then true
    else
      assert forall i :: 1 <= i < |results| ==> results[i] == results[1..][i - 1];
      AnyIncludes(results[1..], marker)
  }

  /** The stored list, or the empty initial list when the slot has never been written. */
  function LoadPredictionResults(storage: Storage): (r: seq<string>)
    ensures PredictionResultsKey in storage ==> r == storage[PredictionResultsKey]
    ensures PredictionResultsKey !in storage ==> r == []
  {
    match GetItem(storage, PredictionResultsKey)
    case Some(stored) => stored
    case None => []
  }

  /** The figures on the results page. */
  datatype Summary = Summary(
    total: nat,
    detected: nat,
    normal: nat,
    detectionResult: bool,
    confidence: nat)

  /** Total samples, the "Detected" and "No" counts, the overall flag and the confidence. */
  function Summarize(results: seq<string>): (s: Summary)
    ensures s.total == |results|
    ensures s.detected == |MatchingPositions(results, DetectedMarker)|
    ensures s.normal == |MatchingPositions(results, NormalMarker)|
    ensures s.detected <= s.total && s.normal <= s.total
    ensures s.detected > 0 <==> exists i :: 0 <= i < |results| && Includes(results[i], DetectedMarker)
    ensures s.normal > 0 <==> exists i :: 0 <= i < |results| && Includes(results[i], NormalMarker)
    ensures s.detectionResult <==> s.detected > 0
    ensures s.confidence == ConfidenceScore
  {
    var detected := Matching(results, DetectedMarker);
    var normal := Matching(results, NormalMarker);
    assert |detected| > 0 ==> detected[0] in detected;
    assert |normal| > 0 ==> normal[0] in normal;
    Summary(
      |results|,
      |detected|,
      |normal|,
      AnyIncludes(results, DetectedMarker),
      ConfidenceScore)
  }

  /** With nothing stored the page reports no samples, no detection and both counts 0. */
  lemma EmptyResultsSummary(storage: Storage)
    requires PredictionResultsKey !in storage
    ensures Summarize(LoadPredictionResults(storage)) == Summary(0, 0, 0, false, ConfidenceScore)
  {
  }

  /** The counts are not a partition: "Not Detected" is counted both as detected and as
      normal, so the two counts can add up to more than the total. */
  lemma CountsOverlap()
    ensures var s := Summarize(["Not Detected"]);
            s.total == 1 && s.detected == 1 && s.normal == 1 && s.detectionResult
  {
  }

  /** `predictionResults[index] || "Pending"`: the caption under image `index`; a
      missing or empty result reads "Pending". */
  function ImageLabel(results: seq<string>, index: nat): (caption: string)
    ensures caption != ""
    ensures index < |results| && results[index] != "" ==> caption == results[index]
    ensures (index >= |results| || results[index] == "") ==> caption == PendingLabel
  {
    if index < |results| && results[index] != "" then results[index] else PendingLabel
  }
}

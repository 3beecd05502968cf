/**
 * The metadata normaliser shared by the Streamlit front end and the Flask
 * back end: expansion of test-type codes through the fixed table, the
 * "unknown" to "No" collapse of adaptive support, and the formatting of one
 * stored catalog record into the seven-key recommendation, with fill-in
 * defaults for absent keys.
 */
module Normalizer {

  import opened Wrappers
  import opened Strings

  /** TEST_TYPE_MAPPING: the eight test-type codes and their display names. */
  const TEST_TYPE_MAPPING: map<string, string> := map[
    "A" := "Ability & Aptitude",
    "B" := "Biodata & Situational Judgement",
    "C" := "Competencies",
    "D" := "Development & 360",
    "E" := "Assessment Exercises",
    "K" := "Knowledge & Skills",
    "P" := "Personality & Behavior",
    "S" := "Simulations"
  ]

  /** The name shown for a code that is not in the table. */
  const UNKNOWN := "Unknown"

  /** `TEST_TYPE_MAPPING.get(code, "Unknown")`. */
  function TestTypeName(code: string): (name: string)
    ensures name != UNKNOWN <==> code in TEST_TYPE_MAPPING
    ensures code in TEST_TYPE_MAPPING ==> name == TEST_TYPE_MAPPING[code]
  {
    if code in TEST_TYPE_MAPPING then TEST_TYPE_MAPPING[code] else UNKNOWN
  }

  /**
   * `map_test_types`: total, keeps length and order; each code becomes its
   * table entry, and every code outside the table becomes "Unknown".
   */
  function MapTestTypes(codes: seq<string>): (names: seq<string>)
    ensures |names| == |codes|
    ensures forall i :: 0 <= i < |codes| ==>
      (codes[i] in TEST_TYPE_MAPPING ==> names[i] == TEST_TYPE_MAPPING[codes[i]]) &&
      (codes[i] !in TEST_TYPE_MAPPING ==> names[i] == UNKNOWN)
  {
    seq(|codes|, i requires 0 <= i < |codes| => TestTypeName(codes[i]))
  }

  /** The reverse of the table: the code behind a display name. */
  function CodeOfName(name: string): Option<string> {
    if name == "Ability & Aptitude" then Some("A")
    else if name == "Biodata & Situational Judgement" then Some("B")
    else if name == "Competencies" then Some("C")
    else if name == "Development & 360" then Some("D")
    else if name == "Assessment Exercises" then Some("E")
    else if name == "Knowledge & Skills" then Some("K")
    else if name == "Personality & Behavior" then Some("P")
    else if name == "Simulations" then Some("S")
    else None
  }

  /** No two codes share a display name, so the expansion of a known code can be undone. */
  lemma TestTypeNameInvertible(code: string)
    requires code in TEST_TYPE_MAPPING
    ensures CodeOfName(TestTypeName(code)) == Some(code)
  {
  }

  /** On codes drawn from the table, expansion loses nothing: each code is recovered from its name. */
  lemma {:induction false} MapTestTypesInvertible(codes: seq<string>)
    requires forall i :: 0 <= i < |codes| ==> codes[i] in TEST_TYPE_MAPPING
    ensures forall i :: 0 <= i < |codes| ==> CodeOfName(MapTestTypes(codes)[i]) == Some(codes[i])
  {
    forall i | 0 <= i < |codes|
      ensures CodeOfName(MapTestTypes(codes)[i]) == Some(codes[i])
    {
      TestTypeNameInvertible(codes[i]);
    }
  }

  /**
   * `normalize_adaptive`: a value that lower-cases to "unknown" becomes "No";
   * any other value passes through unchanged.
   */
  function NormalizeAdaptive(adaptive: string): (r: string)
    ensures Lower(adaptive) == "unknown" <==> r != adaptive
    ensures r != adaptive ==> r == "No"
    ensures Lower(r) != "unknown"
  {
    if Lower(adaptive) == "unknown" then "No" else adaptive
  }

  /** Normalising twice is normalising once. */
  lemma NormalizeAdaptiveIdempotent(adaptive: string)
    ensures NormalizeAdaptive(NormalizeAdaptive(adaptive)) == NormalizeAdaptive(adaptive)
  {
  }

  /**
   * A catalog record as the vector index hands it back: each key the ranking
   * reads, `None` when the key is absent from the stored metadata.
   */
  datatype Metadata = Metadata(
    url: Option<string>,
    name: Option<string>,
    adaptiveSupport: Option<string>,
    description: Option<string>,
    duration: Option<int>,
    remoteSupport: Option<string>,
    testType: Option<seq<string>>)

  /** One entry of the output: exactly the seven keys of the response contract. */
  datatype Recommendation = Recommendation(
    url: string,
    name: string,
    adaptiveSupport: string,
    description: string,
    duration: int,
    remoteSupport: string,
    testType: seq<string>)

  /** The test-type codes of a record, `meta.get("test_type", [])`. */
  function TestTypesOf(m: Metadata): seq<string> {
    m.testType.GetOr([])
  }

  /**
   * The dict literal built for every ranked record. `m["url"]` and `m["name"]`
   * raise KeyError when absent (the error names the key, "url" first); every
   * other key gets a default only when it is absent, and a present
   * remote-support value, "Unknown" included, passes through unchanged.
   */
  function Format(m: Metadata): (r: Result<Recommendation, string>)
    ensures r.Err? <==> m.url.None? || m.name.None?
    ensures r.Err? ==> r.error == if m.url.None? then "url" else "name"
    ensures r.Ok? ==>
      && r.value.url == m.url.value
      && r.value.name == m.name.value
      && (m.adaptiveSupport.None? ==> r.value.adaptiveSupport == "No")
      && (m.adaptiveSupport.Some? ==> r.value.adaptiveSupport == NormalizeAdaptive(m.adaptiveSupport.value))
      && Lower(r.value.adaptiveSupport) != "unknown"
      && (m.description.None? ==> r.value.description == "")
      && (m.description.Some? ==> r.value.description == m.description.value)
      && (m.duration.None? ==> r.value.duration == 0)
      && (m.duration.Some? ==> r.value.duration == m.duration.value)
      && (m.remoteSupport.None? ==> r.value.remoteSupport == "No")
      && (m.remoteSupport.Some? ==> r.value.remoteSupport == m.remoteSupport.value)
      && r.value.testType == MapTestTypes(TestTypesOf(m))
  {
    if m.url.None? then Err("url")
    else if m.name.None? then Err("name")
    else
      Ok(Recommendation(
        m.url.value,
        m.name.value,
        NormalizeAdaptive(m.adaptiveSupport.GetOr("No")),
        m.description.GetOr(""),
        m.duration.GetOr(0),
        m.remoteSupport.GetOr("No"),
        MapTestTypes(TestTypesOf(m))))
  }

  /**
   * The deliberate asymmetry: a stored adaptive support of "Unknown" is shown
   * as "No", while a stored remote support of "Unknown" is shown as "Unknown".
   */
  lemma UnknownAsymmetry(m: Metadata)
    requires m.url.Some? && m.name.Some?
    requires m.adaptiveSupport == Some(UNKNOWN) && m.remoteSupport == Some(UNKNOWN)
    ensures Format(m).Ok?
    ensures Format(m).value.adaptiveSupport == "No"
    ensures Format(m).value.remoteSupport == UNKNOWN
  {
    UnknownAdaptiveIsNo();
  }

  /** The stored adaptive value "Unknown" is normalised to "No". */
  lemma UnknownAdaptiveIsNo()
    ensures NormalizeAdaptive(UNKNOWN) == "No"
  {
    var l := Lower(UNKNOWN);
    assert |l| == 7;
    assert forall k :: 0 <= k < 7 ==> l[k] == LowerChar(UNKNOWN[k]);
    assert l == "unknown";
  }
}

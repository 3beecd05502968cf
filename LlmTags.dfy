/**
 * The post-processing of the two LLM helpers used during catalog ingestion:
 * test-type letters extracted from a free-text reply, and job roles split out
 * of one. The HTTP call itself is outside the model: a reply is any string,
 * and a failed call replies "Unknown".
 */
module LlmTags {

  import opened Strings

  /** What `_groq_call` returns when the request or the decoding of its answer fails. */
  const FAILURE_REPLY := "Unknown"

  /** The classification when the reply names no test type. */
  const UNKNOWN_TYPES: seq<string> := ["Unknown"]

  /** The job roles when the reply yields none. */
  const GENERAL_ROLES: seq<string> := ["General Roles"]

  /** The characters that separate job roles in a reply, `[,/]`. */
  const ROLE_SEPARATORS: set<char> := {',', '/'}

  /** The character class `[ABCDKEPS]`: the test-type code letters. */
  predicate IsTestTypeLetter(c: char) {
    c == 'A' || c == 'B' || c == 'C' || c == 'D' || c == 'E' || c == 'K' || c == 'P' || c == 'S'
  }

  /** `re.findall("[ABCDKEPS]", s)`: every code letter of `s`, in order, repeats included. */
  function Letters(s: string): (r: seq<char>)
    ensures forall c :: c in r <==> c in s && IsTestTypeLetter(c)
  {
    if s == [] then []
    else
      var rest := Letters(s[1..]);
      assert forall c :: c in s <==> c == s[0] || c in s[1..];
      (if IsTestTypeLetter(s[0]) then [s[0]] else []) + rest
  }

  /** The elements of `cs` without repeats (the last occurrence of each is kept). */
  function Distinct(cs: seq<char>): (r: seq<char>)
    ensures forall c :: c in r <==> c in cs
    ensures forall i, j :: 0 <= i < j < |r| ==> r[i] != r[j]
  {
    if cs == [] then []
    else
      var rest := Distinct(cs[1..]);
      assert forall c :: c in cs <==> c == cs[0] || c in cs[1..];
      if cs[0] in cs[1..] then rest else [cs[0]] + rest
  }

  /**
   * `list(set(codes))` over the one-letter strings matched in `cs`: each
   * letter once, as a one-letter string. Python does not fix the order of the
   * list; the contract speaks only of its elements.
   */
  function CodeTags(cs: seq<char>): (r: seq<string>)
    ensures r == [] <==> cs == []
    ensures forall i :: 0 <= i < |r| ==> |r[i]| == 1 && r[i][0] in cs
    ensures forall c :: c in cs <==> [c] in r
    ensures forall i, j :: 0 <= i < j < |r| ==> r[i] != r[j]
  {
    var d := Distinct(cs);
    var r := Singletons(d);
    assert forall c :: c in d <==> [c] in r by {
      forall c ensures c in d <==> [c] in r {
        SingletonsMembers(d, c);
      }
    }
    assert forall i, j :: 0 <= i < j < |r| ==> r[i][0] == d[i] && r[j][0] == d[j];
    r
  }

  /** Each character as a one-letter string. */
  function Singletons(d: seq<char>): (r: seq<string>)
    ensures |r| == |d| && forall i :: 0 <= i < |d| ==> r[i] == [d[i]]
  {
    seq(|d|, i requires 0 <= i < |d| => [d[i]])
  }

  /** A one-letter string is among the singletons exactly when its letter is in `d`. */
  lemma SingletonsMembers(d: seq<char>, c: char)
    ensures [c] in Singletons(d) <==> c in d
  {
    var r := Singletons(d);
    if [c] in r {
      var i :| 0 <= i < |r| && r[i] == [c];
      assert [c][0] == c && r[i][0] == d[i];
    }
    if c in d {
      var i :| 0 <= i < |d| && d[i] == c;
      assert r[i] == [c];
    }
  }

  /**
   * The post-processing of `groq_classify_test_types`: the code letters of
   * the upper-cased reply, each once, or ["Unknown"] when it has none.
   */
  function ClassifyTestTypes(reply: string): (r: seq<string>)
    ensures r != []
    ensures r == UNKNOWN_TYPES <==> forall c :: c in Upper(reply) ==> !IsTestTypeLetter(c)
    ensures r != UNKNOWN_TYPES ==>
      && (forall i :: 0 <= i < |r| ==> |r[i]| == 1 && IsTestTypeLetter(r[i][0]))
      && (forall i, j :: 0 <= i < j < |r| ==> r[i] != r[j])
      && (forall c :: IsTestTypeLetter(c) ==> ([c] in r <==> c in Upper(reply)))
  {
    var codes := CodeTags(Letters(Upper(reply)));
    if codes == [] then UNKNOWN_TYPES
    else
      assert |codes[0]| == 1 && |UNKNOWN_TYPES[0]| == 7;
      codes
  }

  /** Letters are found whatever their case in the reply. */
  lemma ClassifyIgnoresCase(reply: string)
    ensures ClassifyTestTypes(Lower(reply)) == ClassifyTestTypes(reply)
    ensures ClassifyTestTypes(Upper(reply)) == ClassifyTestTypes(reply)
  {
    UpperOfLower(reply);
    UpperIdempotent(reply);
  }

  /**
   * A failed call does not classify as unknown: "UNKNOWN" contains the
   * letter K and no other code letter, so the result, which has no repeats,
   * is ["K"] (Knowledge & Skills).
   */
  lemma FailedClassificationIsK()
    ensures var r := ClassifyTestTypes(FAILURE_REPLY);
      r != UNKNOWN_TYPES && "K" in r && forall x :: x in r ==> x == "K"
  {
    LettersOfFailureReply();
    var r := ClassifyTestTypes(FAILURE_REPLY);
    forall x | x in r ensures x == "K" {
      assert x == [x[0]];
    }
  }

  /** The only code letter of the upper-cased failure reply "UNKNOWN" is K. */
  lemma LettersOfFailureReply()
    ensures 'K' in Upper(FAILURE_REPLY)
    ensures forall c :: c in Upper(FAILURE_REPLY) && IsTestTypeLetter(c) ==> c == 'K'
  {
    var u := Upper(FAILURE_REPLY);
    assert |u| == 7;
    assert u[2] == 'K';
    assert forall i :: 0 <= i < 7 ==> u[i] == UpperChar(FAILURE_REPLY[i]);
  }

  /** `[r.strip() for r in re.split(r"[,/]", reply)]`, empty pieces still included. */
  function RolePieces(reply: string): seq<string> {
    StripAll(Split(reply, ROLE_SEPARATORS))
  }

  /**
   * The post-processing of `groq_predict_job_roles`: the reply split at every
   * `,` and `/`, each piece stripped, empty pieces dropped; ["General Roles"]
   * only when no piece survives.
   */
  function PredictJobRoles(reply: string): (r: seq<string>)
    ensures r != []
    ensures forall i :: 0 <= i < |r| ==> r[i] != "" && IsStripped(r[i])
    ensures r == GENERAL_ROLES || forall x :: x in r <==> x in RolePieces(reply) && x != ""
    ensures (forall x :: x in RolePieces(reply) ==> x == "") ==> r == GENERAL_ROLES
    ensures (exists x :: x in RolePieces(reply) && x != "") ==> r == StrippedNonEmpty(Split(reply, ROLE_SEPARATORS))
  {
    RolesOrFallback(Split(reply, ROLE_SEPARATORS))
  }

  /** `roles or ["General Roles"]` over the stripped non-empty pieces. */
  function RolesOrFallback(pieces: seq<string>): (r: seq<string>)
    ensures r != []
    ensures forall i :: 0 <= i < |r| ==> r[i] != "" && IsStripped(r[i])
    ensures r == GENERAL_ROLES || forall x :: x in r <==> x in StripAll(pieces) && x != ""
    ensures (forall x :: x in StripAll(pieces) ==> x == "") ==> r == GENERAL_ROLES
    ensures (exists x :: x in StripAll(pieces) && x != "") ==> r == StrippedNonEmpty(pieces)
  {
    var roles := StrippedNonEmpty(pieces);
    StrippedNonEmptyIsEmpty(pieces);
    GeneralRolesIsOneRole();
    if roles == [] then
      assert !exists x :: x in StripAll(pieces) && x != "";
      GENERAL_ROLES
    else
      assert !forall x :: x in StripAll(pieces) ==> x == "";
      roles
  }

  /** The fallback is one non-empty, stripped role. */
  lemma GeneralRolesIsOneRole()
    ensures |GENERAL_ROLES| == 1 && GENERAL_ROLES[0] != "" && IsStripped(GENERAL_ROLES[0])
  {
  }

  /**
   * The literal reply "General Roles" is indistinguishable from the fallback:
   * the fallback list means every piece was empty or was that literal.
   */
  lemma GeneralRolesMeansNoOtherPiece(reply: string)
    requires PredictJobRoles(reply) == GENERAL_ROLES
    ensures forall x :: x in RolePieces(reply) ==> x == "" || x == GENERAL_ROLES[0]
  {
  }

  /**
   * The roles keep the order and the repeats of the reply: a `,` or `/` splits
   * them into the roles before it followed by the roles after it.
   */
  lemma RolesInOrder(a: string, c: char, b: string)
    requires c in ROLE_SEPARATORS
    ensures StrippedNonEmpty(Split(a + [c] + b, ROLE_SEPARATORS)) ==
      StrippedNonEmpty(Split(a, ROLE_SEPARATORS)) + StrippedNonEmpty(Split(b, ROLE_SEPARATORS))
  {
    SplitAt(a, c, b, ROLE_SEPARATORS);
    StrippedNonEmptyAppend(Split(a, ROLE_SEPARATORS), Split(b, ROLE_SEPARATORS));
  }

  /** No stripped piece, and so no predicted role, holds a `,` or a `/`. */
  lemma RolesAvoidSeparators(reply: string)
    ensures forall x :: x in RolePieces(reply) ==> Avoids(x, ROLE_SEPARATORS)
  {
    var pieces := Split(reply, ROLE_SEPARATORS);
    forall x | x in RolePieces(reply) ensures Avoids(x, ROLE_SEPARATORS) {
      var j :| 0 <= j < |pieces| && StripAll(pieces)[j] == x;
      assert Avoids(pieces[j], ROLE_SEPARATORS);
    }
  }

  /** The failure reply is one stripped piece without a separator. */
  lemma FailureReplyIsOneRole()
    ensures FAILURE_REPLY != "" && IsStripped(FAILURE_REPLY) && Avoids(FAILURE_REPLY, ROLE_SEPARATORS)
  {
    assert forall i :: 0 <= i < |FAILURE_REPLY| ==> FAILURE_REPLY[i] !in ROLE_SEPARATORS;
  }

  /** A failed call gives the job roles ["Unknown"], not ["General Roles"]. */
  lemma FailedRolesAreUnknown()
    ensures PredictJobRoles(FAILURE_REPLY) == ["Unknown"]
  {
    FailureReplyIsOneRole();
    SplitWithoutSeparators(FAILURE_REPLY, ROLE_SEPARATORS);
    StripOfStripped(FAILURE_REPLY);
    assert [FAILURE_REPLY][1..] == [];
    assert StrippedNonEmpty([FAILURE_REPLY]) == [FAILURE_REPLY];
  }
}

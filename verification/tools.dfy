/** The agent's tool functions: diagnosis-code enrichment, payer-policy lookup
    and the approval prediction. */
module AgentTools {
  import opened Wrappers
  import opened Text
  import opened Numerics
  import opened Ranking
  import opened RagEngine

  // ---------------------------------------------------------------------------
  // extract_diagnosis
  // ---------------------------------------------------------------------------

  /** An entry of the ICD-10 table. */
  datatype Icd10Info = Icd10Info(description: string, category: string)

  datatype Diagnosis = Diagnosis(code: string, description: string, category: string)

  datatype Procedure = Procedure(code: string, description: string)

  /** The arguments the model passes; a missing key is `None`. */
  datatype DiagnosisArgs = DiagnosisArgs(
    icd10Codes: Option<seq<string>>,
    cptCodes: Option<seq<string>>,
    primaryDiagnosis: Option<string>,
    clinicalSummary: Option<string>)

  /** The dictionary `execute_extract_diagnosis` returns; its status is always `"success"`. */
  datatype DiagnosisReport = DiagnosisReport(
    diagnoses: seq<Diagnosis>,
    procedures: seq<Procedure>,
    primaryDiagnosis: string,
    clinicalSummary: string)

  const UnknownIcd10 := Icd10Info("Unknown code", "unknown")
  const UnknownProcedure := "Unknown procedure"

  /** The ICD-10 loop: one entry per code, in order, with the table's
      description and category, or the defaults for a code the table lacks. */
  function EnrichIcd10(codes: seq<string>, table: map<string, Icd10Info>): (r: seq<Diagnosis>)
    ensures |r| == |codes|
    ensures forall i :: 0 <= i < |codes| ==> r[i].code == codes[i]
    ensures forall i :: 0 <= i < |codes| && codes[i] in table ==>
      r[i].description == table[codes[i]].description && r[i].category == table[codes[i]].category
    ensures forall i :: 0 <= i < |codes| && codes[i] !in table ==>
      r[i].description == "Unknown code" && r[i].category == "unknown"
  {
    if |codes| == 0 then []
    else
      var code := codes[|codes| - 1];
      var info := if code in table then table[code] else UnknownIcd10;
      EnrichIcd10(codes[..|codes| - 1], table) + [Diagnosis(code, info.description, info.category)]
  }

  /** The CPT loop: one entry per code, in order, with the table's description
      or `"Unknown procedure"`. */
  function EnrichCpt(codes: seq<string>, table: map<string, string>): (r: seq<Procedure>)
    ensures |r| == |codes|
    ensures forall i :: 0 <= i < |codes| ==> r[i].code == codes[i]
    ensures forall i :: 0 <= i < |codes| && codes[i] in table ==> r[i].description == table[codes[i]]
    ensures forall i :: 0 <= i < |codes| && codes[i] !in table ==> r[i].description == "Unknown procedure"
  {
    if |codes| == 0 then []
    else
      var code := codes[|codes| - 1];
      var desc := if code in table then table[code] else UnknownProcedure;
      EnrichCpt(codes[..|codes| - 1], table) + [Procedure(code, desc)]
  }

  /** `execute_extract_diagnosis`. */
  function ExtractDiagnosis(args: DiagnosisArgs, icd10: map<string, Icd10Info>, cpt: map<string, string>)
    : (r: DiagnosisReport)
    ensures |r.diagnoses| == |args.icd10Codes.GetOr([])|
    ensures |r.procedures| == |args.cptCodes.GetOr([])|
    ensures r.primaryDiagnosis == (if args.primaryDiagnosis.Some? then args.primaryDiagnosis.value else "")
    ensures r.clinicalSummary == (if args.clinicalSummary.Some? then args.clinicalSummary.value else "")
  {
    DiagnosisReport(
      EnrichIcd10(args.icd10Codes.GetOr([]), icd10),
      EnrichCpt(args.cptCodes.GetOr([]), cpt),
      args.primaryDiagnosis.GetOr(""),
      args.clinicalSummary.GetOr(""))
  }

  /** Enrichment is code by code: the report for a list of codes is the report
      for a prefix followed by the report for the rest. */
  lemma {:induction false} EnrichIcd10Append(a: seq<string>, b: seq<string>, table: map<string, Icd10Info>)
    ensures EnrichIcd10(a + b, table) == EnrichIcd10(a, table) + EnrichIcd10(b, table)
  {
    var l, r := EnrichIcd10(a + b, table), EnrichIcd10(a, table) + EnrichIcd10(b, table);
    assert |l| == |r|;
    forall i | 0 <= i < |l| ensures l[i] == r[i] {
      if i < |a| {
        assert (a + b)[i] == a[i];
      } else {
        assert (a + b)[i] == b[i - |a|];
      }
    }
  }

  // ---------------------------------------------------------------------------
  // lookup_payer_policy
  // ---------------------------------------------------------------------------

  function ReplaceChar(s: string, from: char, to: char): (r: string)
    ensures |r| == |s|
    ensures forall i :: 0 <= i < |s| ==> r[i] == (if s[i] == from then to else s[i])
  {
    if |s| == 0 then []
    else [if s[0] == from then to else s[0]] + ReplaceChar(s[1..], from, to)
  }

  /** Lower-case the key and turn every space into an underscore: the result
      has no upper-case letter and no space, and otherwise keeps the text
      character by character. */
  function NormalizeKey(s: string): (r: string)
    ensures |r| == |s|
    ensures forall i :: 0 <= i < |r| ==> r[i] != ' ' && !('A' <= r[i] <= 'Z')
    ensures forall i :: 0 <= i < |s| && s[i] != ' ' ==> r[i] == LowerChar(s[i])
    ensures forall i :: 0 <= i < |s| && s[i] == ' ' ==> r[i] == '_'
  {
    ReplaceChar(Lower(s), ' ', '_')
  }

  /** Normalising a normalised key changes nothing. */
  lemma NormalizeKeyIdempotent(s: string)
    ensures NormalizeKey(NormalizeKey(s)) == NormalizeKey(s)
  {
    var once := NormalizeKey(s);
    var twice := NormalizeKey(once);
    forall i | 0 <= i < |once| ensures twice[i] == once[i] {
      assert once[i] != ' ';
    }
  }

  /** The search text: the procedure type, the words "prior authorization
      requirements", and the payer id with its underscores read as spaces. */
  function PolicyQuery(payerId: string, procedureType: string): string {
    procedureType + " prior authorization requirements " + ReplaceChar(payerId, '_', ' ')
  }

  /** A structured policy entry; a key the entry lacks is `None`. The entry
      is truthy when it holds at least one key. */
  datatype Policy = Policy(
    cptCodes: Option<seq<string>>,
    requiresPriorAuth: Option<bool>,
    requiredDocumentation: Option<seq<string>>,
    autoApproveCriteria: Option<seq<string>>,
    typicalTurnaround: Option<string>,
    appealWindow: Option<string>)
  {
    predicate Truthy() {
      cptCodes.Some? || requiresPriorAuth.Some? || requiredDocumentation.Some?
      || autoApproveCriteria.Some? || typicalTurnaround.Some? || appealWindow.Some?
    }
  }

  /** A payer of the policy table: its display name and its policies by procedure key. */
  datatype Payer = Payer(name: string, policies: map<string, Policy>)

  datatype PolicyArgs = PolicyArgs(payerId: Option<string>, procedureType: Option<string>)

  /** The `structured_policy` block of a successful response. */
  datatype PolicySummary = PolicySummary(
    payerName: string,
    requiresPriorAuth: Option<bool>,
    requiredDocumentation: seq<string>,
    autoApproveCriteria: seq<string>,
    typicalTurnaround: Option<string>,
    appealWindow: Option<string>)

  /** One entry of `rag_results` in the response. */
  datatype RagHit = RagHit(documentId: string, title: string, score: real, content: string)

  datatype PolicyResponse =
    | NotFound(message: string)
    | Found(payerId: string, procedureType: string, ragResults: seq<RagHit>, structured: Option<PolicySummary>)
  {
    function Status(): string {
      if NotFound? then "not_found" else "success"
    }
  }

  /** The normalised keys the lookup works with, `""` for a missing argument. */
  function PayerKey(args: PolicyArgs): string {
    NormalizeKey(args.payerId.GetOr(""))
  }

  function ProcedureKey(args: PolicyArgs): string {
    NormalizeKey(args.procedureType.GetOr(""))
  }

  /** The payer's entry in the table, then its policy under the procedure
      key, kept only when the policy is truthy (has at least one key). */
  function StructuredPolicy(payers: map<string, Payer>, payerId: string, procedureType: string): (r: Option<Policy>)
    ensures r.Some? <==> payerId in payers && procedureType in payers[payerId].policies
                         && payers[payerId].policies[procedureType].Truthy()
    ensures r.Some? ==> r.value == payers[payerId].policies[procedureType]
  {
    if payerId in payers && procedureType in payers[payerId].policies
       && payers[payerId].policies[procedureType].Truthy()
    then Some(payers[payerId].policies[procedureType])
    else None
  }

  function Summary(payer: Payer, p: Policy): PolicySummary {
    PolicySummary(payer.name, p.requiresPriorAuth, p.requiredDocumentation.GetOr([]),
                  p.autoApproveCriteria.GetOr([]), p.typicalTurnaround, p.appealWindow)
  }

  function Hit(r: SearchResult): RagHit {
    RagHit(r.documentId, r.title, r.score, r.content)
  }

  /** The response once the search results and the structured entry (if any)
      are known. */
  function Respond(payers: map<string, Payer>, payerId: string, procedureType: string,
                   results: seq<SearchResult>, structured: Option<Policy>): (r: PolicyResponse)
    requires structured.Some? ==> payerId in payers
    ensures r.NotFound? <==> |results| == 0 && structured.None?
    ensures r.NotFound? ==> r.message == "No policy found for '" + procedureType + "' under payer '" + payerId + "'."
    ensures r.Found? ==> r.payerId == payerId && r.procedureType == procedureType
    ensures r.Found? ==> |r.ragResults| == |results|
    ensures r.Found? ==> forall k :: 0 <= k < |results| ==>
      r.ragResults[k].documentId == results[k].documentId && r.ragResults[k].score == results[k].score
    ensures r.Found? ==> (r.structured.Some? <==> structured.Some?)
  {
    if |results| == 0 && structured.None? then
      NotFound("No policy found for '" + procedureType + "' under payer '" + payerId + "'.")
    else
      Found(payerId, procedureType,
            seq(|results|, k requires 0 <= k < |results| => Hit(results[k])),
            if structured.Some? then Some(Summary(payers[payerId], structured.value)) else None)
  }

  /** `execute_lookup_payer_policy` with the keys looked up exactly as
      normalised, given the search results for its query: `not_found` exactly
      when the search found nothing and the table has no truthy entry. */
  function LookupPayerPolicy(args: PolicyArgs, results: seq<SearchResult>, payers: map<string, Payer>)
    : (r: PolicyResponse)
    ensures r.NotFound? <==> |results| == 0 && StructuredPolicy(payers, PayerKey(args), ProcedureKey(args)).None?
    ensures r.Found? ==> r.payerId == PayerKey(args) && r.procedureType == ProcedureKey(args)
    ensures r.Found? ==> (r.structured.Some? <==> StructuredPolicy(payers, PayerKey(args), ProcedureKey(args)).Some?)
    ensures r.Found? ==> |r.ragResults| == |results|
    ensures r.Found? ==> forall k :: 0 <= k < |results| ==>
      r.ragResults[k].documentId == results[k].documentId && r.ragResults[k].score == results[k].score
    ensures r.NotFound? ==>
      r.message == "No policy found for '" + ProcedureKey(args) + "' under payer '" + PayerKey(args) + "'."
  {
    var payerId, procedureType := PayerKey(args), ProcedureKey(args);
    Respond(payers, payerId, procedureType, results, StructuredPolicy(payers, payerId, procedureType))
  }

  /** Arguments that are already normalised give the same response. */
  lemma LookupNormalizedArgs(args: PolicyArgs, results: seq<SearchResult>, payers: map<string, Payer>)
    ensures LookupPayerPolicy(PolicyArgs(Some(PayerKey(args)), Some(ProcedureKey(args))), results, payers)
         == LookupPayerPolicy(args, results, payers)
  {
    NormalizeKeyIdempotent(args.payerId.GetOr(""));
    NormalizeKeyIdempotent(args.procedureType.GetOr(""));
  }

  /** A table key holding an upper-case letter is never the normalised form
      of any argument, so its entry is never read. */
  lemma {:induction false} UpperCaseKeyUnreachable(args: PolicyArgs, key: string, i: nat)
    requires i < |key| && 'A' <= key[i] <= 'Z'
    ensures ProcedureKey(args) != key
  {
    var k := ProcedureKey(args);
    if |k| == |key| {
      assert k[i] != key[i];
    }
  }

  /** The table as shipped keys the MRI policy as `"MRI"`, the example value
      the tool schema gives; asking for `"MRI"` with no search hit answers
      `not_found`. */
  lemma MixedCaseLookupNotFound(p: Policy)
    requires p.Truthy()
    ensures LookupPayerPolicy(PolicyArgs(Some("united_healthcare"), Some("MRI")), [],
              map["united_healthcare" := Payer("United Healthcare", map["MRI" := p])]).NotFound?
  {
    UpperCaseKeyUnreachable(PolicyArgs(Some("united_healthcare"), Some("MRI")), "MRI", 0);
  }

  /** With any search hit, as the shipped corpus always gives for this payer,
      the same request answers `success` but without the structured MRI policy. */
  lemma MixedCaseLookupNoStructured(p: Policy, results: seq<SearchResult>)
    requires p.Truthy() && |results| > 0
    ensures var r := LookupPayerPolicy(PolicyArgs(Some("united_healthcare"), Some("MRI")), results,
                                       map["united_healthcare" := Payer("United Healthcare", map["MRI" := p])]);
      r.Found? && r.structured.None?
  {
    UpperCaseKeyUnreachable(PolicyArgs(Some("united_healthcare"), Some("MRI")), "MRI", 0);
  }

  /** Some key of the table has `procedureType` as its normal form. */
  predicate Reachable(policies: map<string, Policy>, procedureType: string) {
    exists k :: k in policies && NormalizeKey(k) == procedureType
  }

  predicate AllTruthy(policies: map<string, Policy>) {
    forall k :: k in policies ==> policies[k].Truthy()
  }

  /** The policy entry looked up so that table keys and arguments are compared
      in the same normal form: the exact key when present, otherwise any key
      whose normal form is the argument. */
  method FoldedPolicy(policies: map<string, Policy>, procedureType: string) returns (r: Option<Policy>)
    ensures procedureType in policies ==> r == Some(policies[procedureType])
    ensures r.None? <==> procedureType !in policies && !Reachable(policies, procedureType)
    ensures r.Some? ==> exists k :: k in policies && r.value == policies[k]
  {
    if procedureType in policies {
      return Some(policies[procedureType]);
    }
    if k :| k in policies && NormalizeKey(k) == procedureType {
      return Some(policies[k]);
    }
    return None;
  }

  /** `execute_lookup_payer_policy` with the structured entry found by
      `FoldedPolicy`: in a table of truthy entries, every entry is reachable
      by a request naming its key in any letter case. */
  method LookupPayerPolicyFolded(args: PolicyArgs, results: seq<SearchResult>, payers: map<string, Payer>)
    returns (r: PolicyResponse)
    ensures r.NotFound? ==> |results| == 0
    ensures r.Found? ==> |r.ragResults| == |results|
    ensures r.NotFound? ==> r.message == "No policy found for '" + ProcedureKey(args) + "' under payer '" + PayerKey(args) + "'."
    ensures r.Found? ==> r.payerId == PayerKey(args) && r.procedureType == ProcedureKey(args)
    ensures PayerKey(args) in payers && AllTruthy(payers[PayerKey(args)].policies)
            && Reachable(payers[PayerKey(args)].policies, ProcedureKey(args))
            ==> r.Found? && r.structured.Some?
  {
    var payerId, procedureType := PayerKey(args), ProcedureKey(args);
    var structured: Option<Policy> := None;
    if payerId in payers {
      var found := FoldedPolicy(payers[payerId].policies, procedureType);
      if found.Some? && found.value.Truthy() {
        structured := found;
      }
    }
    r := Respond(payers, payerId, procedureType, results, structured);
  }

  /** The shipped table's `"MRI"` key is reachable once keys are compared in
      normal form. */
  lemma MixedCaseKeyReachable(p: Policy)
    ensures Reachable(map["MRI" := p], ProcedureKey(PolicyArgs(Some("united_healthcare"), Some("MRI"))))
  {
    assert NormalizeKey("MRI") == "mri";
  }

  /** The search the tool runs: the query built from the normalised keys,
      `top_k` 2, and the payer id as filter. */
  function PolicyHits(ops: Ops, e: Engine, args: PolicyArgs): (hits: seq<SearchResult>)
    requires Consistent(ops, e)
    ensures |hits| <= 2
  {
    Search(ops, e, PolicyQuery(PayerKey(args), ProcedureKey(args)), 2, Some(PayerKey(args))).1
  }

  /** The whole tool as written: search the engine, then answer from the hits
      and the table entry under the exact normalised keys. Returns the engine
      after the search, which the search has initialised. */
  function PolicyLookup(ops: Ops, e: Engine, args: PolicyArgs, payers: map<string, Payer>)
    : (r: (Engine, PolicyResponse))
    requires Consistent(ops, e)
    ensures r.0 == Initialize(ops, e)
    ensures var hits := PolicyHits(ops, e, args);
      && (r.1.NotFound? <==> |hits| == 0 && StructuredPolicy(payers, PayerKey(args), ProcedureKey(args)).None?)
      && (r.1.Found? ==> |r.1.ragResults| == |hits|)
      && (r.1.Found? ==> forall k :: 0 <= k < |hits| ==>
            r.1.ragResults[k].documentId == hits[k].documentId && r.1.ragResults[k].score == hits[k].score)
    ensures r.1.Found? ==>
      (r.1.structured.Some? <==> StructuredPolicy(payers, PayerKey(args), ProcedureKey(args)).Some?)
  {
    (Initialize(ops, e), LookupPayerPolicy(args, PolicyHits(ops, e, args), payers))
  }

  /** The whole tool with the corrected lookup: the same search, then the
      structured entry found by `FoldedPolicy`, so that a table key is found
      whatever its letter case. */
  method PolicyLookupFolded(ops: Ops, e: Engine, args: PolicyArgs, payers: map<string, Payer>)
    returns (e': Engine, r: PolicyResponse)
    requires Consistent(ops, e)
    ensures e' == Initialize(ops, e)
    ensures r.NotFound? ==> |PolicyHits(ops, e, args)| == 0
    ensures r.Found? ==> |r.ragResults| == |PolicyHits(ops, e, args)| <= 2
    ensures PayerKey(args) in payers && AllTruthy(payers[PayerKey(args)].policies)
            && Reachable(payers[PayerKey(args)].policies, ProcedureKey(args))
            ==> r.Found? && r.structured.Some?
  {
    var payerId, procedureType := PayerKey(args), ProcedureKey(args);
    e' := Search(ops, e, PolicyQuery(payerId, procedureType), 2, Some(payerId)).0;
    r := LookupPayerPolicyFolded(args, PolicyHits(ops, e, args), payers);
  }

  // ---------------------------------------------------------------------------
  // predict_approval
  // ---------------------------------------------------------------------------

  datatype PredictionArgs = PredictionArgs(
    confidenceScore: Option<int>,
    riskLevel: Option<string>,
    strengths: Option<seq<string>>,
    weaknesses: Option<seq<string>>,
    missingDocumentation: Option<seq<string>>,
    recommendation: Option<string>)

  /** The dictionary `execute_predict_approval` returns; its status is always `"success"`. */
  datatype Prediction = Prediction(
    confidenceScore: int,
    riskLevel: string,
    strengths: seq<string>,
    weaknesses: seq<string>,
    missingDocumentation: seq<string>,
    recommendation: string,
    requiresHumanReview: bool)

  const DefaultConfidence := 50
  const ReviewThreshold := 70

  /** `execute_predict_approval`: echo the arguments with their defaults and
      flag human review exactly when the confidence is below 70. */
  function PredictApproval(args: PredictionArgs): (r: Prediction)
    ensures args.confidenceScore.None? ==> r.confidenceScore == 50 && r.requiresHumanReview
    ensures args.confidenceScore.Some? ==> r.confidenceScore == args.confidenceScore.value
    ensures r.requiresHumanReview <==> r.confidenceScore < 70
    ensures r.riskLevel == (if args.riskLevel.Some? then args.riskLevel.value else "medium")
    ensures r.recommendation == (if args.recommendation.Some? then args.recommendation.value else "revise")
  {
    var confidence := args.confidenceScore.GetOr(DefaultConfidence);
    Prediction(confidence, args.riskLevel.GetOr("medium"), args.strengths.GetOr([]),
               args.weaknesses.GetOr([]), args.missingDocumentation.GetOr([]),
               args.recommendation.GetOr("revise"), confidence < ReviewThreshold)
  }
}

/** The in-memory case store of the API (`cases_db` and `review_queue`) and the
    handlers that change or read it: what `submit_case` does once the agent
    has run, `submit_review`, `get_review_queue` and the counts of `get_stats`. */
module CaseStore {
  import opened Wrappers
  import opened AgentTools

  /** The fields of a `CaseSubmission`. */
  datatype Submission = Submission(
    patientName: string,
    patientAge: int,
    patientGender: string,
    insurancePayer: string,
    memberId: string,
    referringPhysician: string,
    physicianNpi: string,
    procedureRequested: string,
    cptCodes: seq<string>,
    icd10Codes: seq<string>,
    clinicalNotes: string)

  /** The keys of a tool output the handler reads; a missing key is `None`. */
  datatype ToolOutput = ToolOutput(
    confidenceScore: Option<int>,
    requiresHumanReview: Option<bool>,
    authRequestLetter: Option<string>)

  /** One entry of the agent's `tool_results`. */
  datatype ToolResult = ToolResult(tool: string, output: ToolOutput)

  /** How the agent run ended: its tool results, or the exception's message. */
  datatype AgentRun = Completed(toolResults: seq<ToolResult>) | Failed(message: string)

  datatype Case = Case(
    caseId: string,
    submittedAt: string,
    status: string,
    submission: Submission,
    toolResults: Option<seq<ToolResult>>,
    confidenceScore: Option<int>,
    requiresHumanReview: Option<bool>,
    authLetter: Option<string>,
    error: Option<string>,
    reviewerNotes: Option<string>,
    reviewedAt: Option<string>)

  datatype Store = Store(cases: map<string, Case>, reviewQueue: seq<string>)

  /** A handler's answer: the body, or the `HTTPException` it raises. */
  datatype Response<T> = Ok(value: T) | HttpError(code: int, detail: string)

  datatype ReviewDecision = ReviewDecision(caseId: string, decision: string, reviewerNotes: string)

  const EmptyStore := Store(map[], [])

  // ---------------------------------------------------------------------------
  // Reading the agent's tool results
  // ---------------------------------------------------------------------------

  /** What `submit_case` keeps from the tool results. */
  datatype Outcome = Outcome(confidence: int, requiresReview: bool, authLetter: string)

  const Initial := Outcome(50, false, "")

  /** One turn of the loop over `tool_results`. */
  function Step(o: Outcome, tr: ToolResult): Outcome {
    var o' := if tr.tool == "predict_approval" then
      o.(confidence := tr.output.confidenceScore.GetOr(50),
         requiresReview := tr.output.requiresHumanReview.GetOr(false))
    else o;
    if tr.tool == "draft_auth_request" then o'.(authLetter := tr.output.authRequestLetter.GetOr(""))
    else o'
  }

  /** The loop over `tool_results`, left to right. */
  function Summarize(trs: seq<ToolResult>): Outcome {
    if |trs| == 0 then Initial
    else Step(Summarize(trs[..|trs| - 1]), trs[|trs| - 1])
  }

  /** The position of the last result of tool `name`, if any. */
  function LastOf(trs: seq<ToolResult>, name: string): (r: Option<nat>)
    ensures r.None? ==> forall j :: 0 <= j < |trs| ==> trs[j].tool != name
    ensures r.Some? ==> r.value < |trs| && trs[r.value].tool == name
    ensures r.Some? ==> forall j :: r.value < j < |trs| ==> trs[j].tool != name
  {
    if |trs| == 0 then None
    else if trs[|trs| - 1].tool == name then Some(|trs| - 1)
    else LastOf(trs[..|trs| - 1], name)
  }

  /** The last `predict_approval` result decides the confidence and the review
      flag, the last `draft_auth_request` result the letter; with no such result
      the defaults 50, no review and the empty letter stand. */
  lemma {:induction false} SummarizeLastWins(trs: seq<ToolResult>)
    ensures Summarize(trs).confidence ==
      (match LastOf(trs, "predict_approval")
       case None => 50
       case Some(i) => trs[i].output.confidenceScore.GetOr(50))
    ensures Summarize(trs).requiresReview ==
      (match LastOf(trs, "predict_approval")
       case None => false
       case Some(i) => trs[i].output.requiresHumanReview.GetOr(false))
    ensures Summarize(trs).authLetter ==
      (match LastOf(trs, "draft_auth_request")
       case None => ""
       case Some(i) => trs[i].output.authRequestLetter.GetOr(""))
  {
    if |trs| > 0 {
      SummarizeLastWins(trs[..|trs| - 1]);
    }
  }

  /** The status `submit_case` assigns after a completed run. */
  function Classify(o: Outcome): (status: string)
    ensures status == "pending_review" <==> o.requiresReview
    ensures status == "auto_approved" <==> !o.requiresReview && o.confidence >= 85
    ensures status == "ready_to_submit" <==> !o.requiresReview && o.confidence < 85
  {
    if o.requiresReview then "pending_review"
    else if o.confidence >= 85 then "auto_approved"
    else "ready_to_submit"
  }

  /** The output of `execute_predict_approval` as the loop reads it. */
  function PredictionOutput(p: Prediction): ToolOutput {
    ToolOutput(Some(p.confidenceScore), Some(p.requiresHumanReview), None)
  }

  /** When the last `predict_approval` result is the tool's own output, the
      status follows the confidence alone: below 70 pending review, 70 to 84
      ready to submit, 85 and above approved automatically. */
  lemma ClassifyPrediction(trs: seq<ToolResult>, i: nat, args: PredictionArgs)
    requires LastOf(trs, "predict_approval") == Some(i)
    requires trs[i].output == PredictionOutput(PredictApproval(args))
    ensures var c := PredictApproval(args).confidenceScore;
      && (Classify(Summarize(trs)) == "pending_review" <==> c < 70)
      && (Classify(Summarize(trs)) == "ready_to_submit" <==> 70 <= c < 85)
      && (Classify(Summarize(trs)) == "auto_approved" <==> 85 <= c)
  {
    SummarizeLastWins(trs);
  }

  // ---------------------------------------------------------------------------
  // Handlers
  // ---------------------------------------------------------------------------

  /** `submit_case`, with the generated id, the timestamp and the agent run as
      parameters. The case is stored as `processing`; a failed run marks it
      `error` and answers 500; a completed run sets the status from the tool
      results and queues the case exactly when review is required. */
  function SubmitCase(store: Store, caseId: string, submittedAt: string, submission: Submission, run: AgentRun)
    : (r: (Store, Response<Case>))
    ensures r.0.cases.Keys == store.cases.Keys + {caseId}
    ensures forall id :: id in store.cases && id != caseId ==> r.0.cases[id] == store.cases[id]
    ensures r.0.cases[caseId].caseId == caseId && r.0.cases[caseId].submission == submission
    ensures r.0.cases[caseId].submittedAt == submittedAt
    ensures r.0.cases[caseId].reviewerNotes.None? && r.0.cases[caseId].reviewedAt.None?
    ensures r.1.HttpError? <==> run.Failed?
    ensures run.Failed? ==> r.1.code == 500 && r.1.detail == "Agent error: " + run.message
    ensures run.Failed? ==> r.0.cases[caseId].status == "error" && r.0.cases[caseId].error == Some(run.message)
    ensures run.Failed? ==> r.0.reviewQueue == store.reviewQueue
    ensures run.Failed? ==>
      && r.0.cases[caseId].toolResults.None? && r.0.cases[caseId].confidenceScore.None?
      && r.0.cases[caseId].requiresHumanReview.None? && r.0.cases[caseId].authLetter.None?
    ensures run.Completed? ==> r.1.value == r.0.cases[caseId]
    ensures run.Completed? ==> r.0.cases[caseId].confidenceScore == Some(Summarize(run.toolResults).confidence)
    ensures run.Completed? ==> r.0.cases[caseId].status == Classify(Summarize(run.toolResults))
    ensures run.Completed? ==>
      && r.0.cases[caseId].toolResults == Some(run.toolResults)
      && r.0.cases[caseId].requiresHumanReview == Some(Summarize(run.toolResults).requiresReview)
      && r.0.cases[caseId].authLetter == Some(Summarize(run.toolResults).authLetter)
      && r.0.cases[caseId].error.None?
    ensures r.0.reviewQueue ==
      store.reviewQueue + (if r.0.cases[caseId].status == "pending_review" then [caseId] else [])
  {
    var processing := Case(caseId, submittedAt, "processing", submission, None, None, None, None, None, None, None);
    match run
    case Failed(message) =>
      var failed := processing.(status := "error", error := Some(message));
      (Store(store.cases[caseId := failed], store.reviewQueue), HttpError(500, "Agent error: " + message))
    case Completed(trs) =>
      var o := Summarize(trs);
      var done := processing.(status := Classify(o), toolResults := Some(trs), confidenceScore := Some(o.confidence),
                              requiresHumanReview := Some(o.requiresReview), authLetter := Some(o.authLetter));
      var queue := if o.requiresReview then store.reviewQueue + [caseId] else store.reviewQueue;
      (Store(store.cases[caseId := done], queue), Ok(done))
  }

  /** The position of the first occurrence of `x` in `q`. */
  function IndexOf<T(==)>(q: seq<T>, x: T): (i: nat)
    requires x in q
    ensures i < |q| && q[i] == x
    ensures forall j :: 0 <= j < i ==> q[j] != x
  {
    if q[0] == x then 0 else 1 + IndexOf(q[1..], x)
  }

  /** `list.remove` guarded by `in`: drop the first occurrence, if any, and
      keep everything else in order. */
  function RemoveFirst<T(==)>(q: seq<T>, x: T): (r: seq<T>)
    ensures x !in q ==> r == q
    ensures x in q ==> |r| == |q| - 1
    ensures x in q ==> forall k :: 0 <= k < IndexOf(q, x) ==> r[k] == q[k]
    ensures x in q ==> forall k :: IndexOf(q, x) <= k < |q| - 1 ==> r[k] == q[k + 1]
  {
    if |q| == 0 then []
    else if q[0] == x then q[1..]
    else [q[0]] + RemoveFirst(q[1..], x)
  }

  /** `submit_review`: an unknown case answers 404 and changes nothing;
      otherwise the decision becomes the status, the notes and the review time
      are recorded, every other field of the case is kept, and the case leaves
      the review queue. */
  function SubmitReview(store: Store, d: ReviewDecision, reviewedAt: string): (r: (Store, Response<Case>))
    ensures d.caseId !in store.cases ==> r.0 == store && r.1 == HttpError(404, "Case not found")
    ensures d.caseId in store.cases ==>
      && r.0.cases.Keys == store.cases.Keys
      && (forall id :: id in store.cases && id != d.caseId ==> r.0.cases[id] == store.cases[id])
      && r.0.cases[d.caseId] == store.cases[d.caseId].(status := d.decision, reviewerNotes := Some(d.reviewerNotes),
                                                         reviewedAt := Some(reviewedAt))
      && r.1 == Ok(r.0.cases[d.caseId])
      && r.0.reviewQueue == RemoveFirst(store.reviewQueue, d.caseId)
  {
    if d.caseId !in store.cases then (store, HttpError(404, "Case not found"))
    else
      var reviewed := store.cases[d.caseId].(status := d.decision, reviewerNotes := Some(d.reviewerNotes),
                                             reviewedAt := Some(reviewedAt));
      (Store(store.cases[d.caseId := reviewed], RemoveFirst(store.reviewQueue, d.caseId)), Ok(reviewed))
  }

  /** The queued ids that are still stored, in queue order. */
  function Present(q: seq<string>, cases: map<string, Case>): (r: seq<string>)
    ensures forall id :: id in r <==> id in q && id in cases
    ensures |r| <= |q|
    ensures (forall i :: 0 <= i < |q| ==> q[i] in cases) ==> r == q
  {
    if |q| == 0 then []
    else (if q[0] in cases then [q[0]] else []) + Present(q[1..], cases)
  }

  /** Filtering a concatenated queue filters each part in turn, so the kept ids
      keep their queue order. */
  lemma {:induction false} PresentAppend(a: seq<string>, b: seq<string>, cases: map<string, Case>)
    ensures Present(a + b, cases) == Present(a, cases) + Present(b, cases)
  {
    if |a| == 0 {
      assert a + b == b;
    } else {
      assert (a + b)[1..] == a[1..] + b;
      PresentAppend(a[1..], b, cases);
    }
  }

  /** `get_review_queue`: the stored case of every queued id that is still in
      the store, in queue order. */
  function ReviewQueue(store: Store): (r: seq<Case>)
    ensures |r| == |Present(store.reviewQueue, store.cases)|
    ensures forall k :: 0 <= k < |r| ==>
      Present(store.reviewQueue, store.cases)[k] in store.cases
      && r[k] == store.cases[Present(store.reviewQueue, store.cases)[k]]
  {
    var ids := Present(store.reviewQueue, store.cases);
    seq(|ids|, k requires 0 <= k < |ids| => store.cases[ids[k]])
  }

  // ---------------------------------------------------------------------------
  // The store invariant
  // ---------------------------------------------------------------------------

  predicate NoDuplicates<T(==)>(q: seq<T>) {
    forall i, j :: 0 <= i < j < |q| ==> q[i] != q[j]
  }

  /** The queue lists each case awaiting review exactly once: every queued id
      is stored with status `pending_review`, no id is queued twice, and every
      stored `pending_review` case is queued. */
  ghost predicate StoreInv(store: Store) {
    && (forall i :: 0 <= i < |store.reviewQueue| ==>
          store.reviewQueue[i] in store.cases && store.cases[store.reviewQueue[i]].status == "pending_review")
    && NoDuplicates(store.reviewQueue)
    && (forall id :: id in store.cases && store.cases[id].status == "pending_review" ==> id in store.reviewQueue)
  }

  lemma EmptyStoreInv()
    ensures StoreInv(EmptyStore)
  {
  }

  /** A submission under a fresh id keeps the invariant. */
  lemma SubmitCasePreserves(store: Store, caseId: string, submittedAt: string, submission: Submission, run: AgentRun)
    requires StoreInv(store)
    requires caseId !in store.cases
    ensures StoreInv(SubmitCase(store, caseId, submittedAt, submission, run).0)
  {
    var s' := SubmitCase(store, caseId, submittedAt, submission, run).0;
    assert caseId !in store.reviewQueue;
    forall i | 0 <= i < |s'.reviewQueue|
      ensures s'.reviewQueue[i] in s'.cases && s'.cases[s'.reviewQueue[i]].status == "pending_review"
    {
      if i < |store.reviewQueue| {
        assert s'.reviewQueue[i] == store.reviewQueue[i];
      }
    }
  }

  /** Removing `x` from a queue without duplicates leaves a queue without
      duplicates holding every other id and not `x`. */
  lemma RemoveFirstNoDuplicates<T>(q: seq<T>, x: T)
    requires NoDuplicates(q)
    ensures NoDuplicates(RemoveFirst(q, x))
    ensures forall y :: y in RemoveFirst(q, x) <==> y in q && y != x
  {
    if x in q {
      var i := IndexOf(q, x);
      var r := RemoveFirst(q, x);
      forall y | y in r ensures y in q && y != x {
        var k :| 0 <= k < |r| && r[k] == y;
        var qk := if k < i then k else k + 1;
        assert r[k] == q[qk];
      }
      forall y | y in q && y != x ensures y in r {
        var k :| 0 <= k < |q| && q[k] == y;
        var rk := if k < i then k else k - 1;
        assert r[rk] == q[k];
      }
      forall a, b | 0 <= a < b < |r| ensures r[a] != r[b] {
        var qa := if a < i then a else a + 1;
        var qb := if b < i then b else b + 1;
        assert r[a] == q[qa] && r[b] == q[qb];
      }
    }
  }

  /** A review keeps the invariant unless its decision is itself
      `pending_review`: that leaves the case pending but no longer queued. */
  lemma SubmitReviewPreserves(store: Store, d: ReviewDecision, reviewedAt: string)
    requires StoreInv(store)
    requires d.decision != "pending_review"
    ensures StoreInv(SubmitReview(store, d, reviewedAt).0)
  {
    if d.caseId in store.cases {
      var s' := SubmitReview(store, d, reviewedAt).0;
      RemoveFirstNoDuplicates(store.reviewQueue, d.caseId);
      forall i | 0 <= i < |s'.reviewQueue|
        ensures s'.reviewQueue[i] in s'.cases && s'.cases[s'.reviewQueue[i]].status == "pending_review"
      {
        assert s'.reviewQueue[i] in store.reviewQueue;
      }
    }
  }

  /** The concrete state the proviso above excludes. */
  lemma PendingDecisionUnqueues(c: Case)
    requires c.status == "pending_review"
    ensures var store := Store(map["PA-1" := c], ["PA-1"]);
      StoreInv(store) && !StoreInv(SubmitReview(store, ReviewDecision("PA-1", "pending_review", ""), "t").0)
  {
    var store := Store(map["PA-1" := c], ["PA-1"]);
    var s' := SubmitReview(store, ReviewDecision("PA-1", "pending_review", ""), "t").0;
    assert s'.reviewQueue == [];
    assert s'.cases["PA-1"].status == "pending_review";
  }

  /** Under the invariant the review queue returns one case per queued id. */
  lemma ReviewQueueComplete(store: Store)
    requires StoreInv(store)
    ensures |ReviewQueue(store)| == |store.reviewQueue|
    ensures forall k :: 0 <= k < |store.reviewQueue| ==>
      ReviewQueue(store)[k] == store.cases[store.reviewQueue[k]]
      && ReviewQueue(store)[k].status == "pending_review"
  {
  }

  // ---------------------------------------------------------------------------
  // get_stats
  // ---------------------------------------------------------------------------

  /** The stored cases with status `s` among `ids`. */
  ghost function WithStatus(cases: map<string, Case>, ids: set<string>, s: string): set<string> {
    set id | id in ids && id in cases && cases[id].status == s
  }

  ghost function SumValues(m: map<string, nat>): nat
    decreases |m|
  {
    if m == map[] then 0
    else
      var k :| k in m;
      m[k] + SumValues(m - {k})
  }

  lemma {:induction false} SumValuesRemove(m: map<string, nat>, k: string)
    requires k in m
    ensures SumValues(m) == m[k] + SumValues(m - {k})
    decreases |m|
  {
    var j :| j in m && SumValues(m) == m[j] + SumValues(m - {j});
    if j != k {
      SumValuesRemove(m - {j}, k);
      SumValuesRemove(m - {k}, j);
      assert m - {j} - {k} == m - {k} - {j};
    }
  }

  /** Count one more case with status `s`, starting a status that is new at one. */
  function BumpStatus(m: map<string, nat>, s: string): (r: map<string, nat>)
    ensures r.Keys == m.Keys + {s}
    ensures r[s] == (if s in m then m[s] else 0) + 1
    ensures forall t :: t in m && t != s ==> r[t] == m[t]
  {
    m[s := (if s in m then m[s] else 0) + 1]
  }

  lemma BumpStatusSum(m: map<string, nat>, s: string)
    ensures SumValues(BumpStatus(m, s)) == SumValues(m) + 1
  {
    var r := BumpStatus(m, s);
    SumValuesRemove(r, s);
    assert r - {s} == m - {s};
    if s in m {
      SumValuesRemove(m, s);
    } else {
      assert m - {s} == m;
    }
  }

  lemma WithStatusAdd(cases: map<string, Case>, ids: set<string>, x: string, s: string)
    requires x in cases && x !in ids
    ensures |WithStatus(cases, ids + {x}, s)| == |WithStatus(cases, ids, s)| + (if cases[x].status == s then 1 else 0)
  {
    if cases[x].status == s {
      assert WithStatus(cases, ids + {x}, s) == WithStatus(cases, ids, s) + {x};
    } else {
      assert WithStatus(cases, ids + {x}, s) == WithStatus(cases, ids, s);
    }
  }

  /** `statuses` counts, per status, the cases among `done`. */
  ghost predicate Tallied(cases: map<string, Case>, done: set<string>, statuses: map<string, nat>) {
    && (forall s :: s in statuses <==> WithStatus(cases, done, s) != {})
    && (forall s :: s in statuses ==> statuses[s] == |WithStatus(cases, done, s)|)
  }

  /** One turn of the counting loop keeps the tally exact. */
  lemma TallyStep(cases: map<string, Case>, done: set<string>, statuses: map<string, nat>, id: string)
    requires id in cases && id !in done
    requires Tallied(cases, done, statuses)
    ensures Tallied(cases, done + {id}, BumpStatus(statuses, cases[id].status))
  {
    var s := cases[id].status;
    var next := BumpStatus(statuses, s);
    WithStatusAdd(cases, done, id, s);
    assert id in WithStatus(cases, done + {id}, s);
    forall t | t != s ensures WithStatus(cases, done + {id}, t) == WithStatus(cases, done, t) {
    }
  }

  datatype Stats = Stats(totalCases: nat, statuses: map<string, nat>, pendingReviews: nat)

  /** The counts of `get_stats`: the number of cases, the number of cases per
      status (only statuses that occur), and the queue length. The counts add
      up to the total. */
  method GetStats(store: Store) returns (r: Stats)
    ensures r.totalCases == |store.cases|
    ensures r.pendingReviews == |store.reviewQueue|
    ensures forall s :: s in r.statuses <==> WithStatus(store.cases, store.cases.Keys, s) != {}
    ensures forall s :: s in r.statuses ==> r.statuses[s] == |WithStatus(store.cases, store.cases.Keys, s)|
    ensures SumValues(r.statuses) == r.totalCases
  {
    var statuses: map<string, nat> := map[];
    var remaining := store.cases.Keys;
    ghost var done: set<string> := {};
    while remaining != {}
      invariant remaining + done == store.cases.Keys && remaining !! done
      invariant Tallied(store.cases, done, statuses)
      invariant SumValues(statuses) == |done|
      decreases |remaining|
    {
      var id :| id in remaining;
      TallyStep(store.cases, done, statuses, id);
      BumpStatusSum(statuses, store.cases[id].status);
      statuses := BumpStatus(statuses, store.cases[id].status);
      remaining := remaining - {id};
      done := done + {id};
    }
    assert done == store.cases.Keys;
    return Stats(|store.cases|, statuses, |store.reviewQueue|);
  }

  lemma {:induction false} DistinctCount<T>(q: seq<T>)
    requires NoDuplicates(q)
    ensures |set id | id in q| == |q|
  {
    if |q| > 0 {
      var rest := q[1..];
      DistinctCount(rest);
      assert (set id | id in q) == (set id | id in rest) + {q[0]};
      assert q[0] !in rest;
    }
  }

  /** Under the invariant the queue length reported as `pending_reviews` equals
      the number of cases with status `pending_review`. */
  lemma PendingMatchesQueue(store: Store)
    requires StoreInv(store)
    ensures |WithStatus(store.cases, store.cases.Keys, "pending_review")| == |store.reviewQueue|
  {
    assert WithStatus(store.cases, store.cases.Keys, "pending_review") == set id | id in store.reviewQueue;
    DistinctCount(store.reviewQueue);
  }
}

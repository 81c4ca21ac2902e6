# Prior-authorization agent: retrieval engine and case store

This project models, in Dafny, the core of a prior-authorization assistant.
An AI agent reads a clinical case and calls a handful of tools. One of them
looks up payer policies through a small retrieval-augmented-generation
("RAG") engine, which does TF-IDF cosine-similarity search over a fixed
corpus of policy documents. An HTTP API stores the cases, assigns each a
status from the agent's tool results, and keeps a queue of cases that wait
for a human reviewer.

The model covers five parts:

- **Tokenizer** (`tokenizer.dfy`, with `text.dfy`). The text is lower-cased
  and split into the maximal runs of `[a-z0-9]`. Stopwords and
  one-character tokens are then dropped.
- **TF-IDF index** (`vocabulary.dfy`, `weighting.dfy`, `vectors.dfy`,
  `index.dfy`). It has three parts:
  - a vocabulary that numbers the sorted distinct tokens,
  - smoothed IDF weights,
  - one L2-normalised, log-scaled term-frequency vector per document.
- **Search** (`ranking.dfy`, `engine.dfy`). The engine builds its index
  lazily, on the first search. A search vectorises the query the same way
  as a document and applies the optional payer filter. It then scores every
  document it keeps with a dot product, sorts stably by score (highest
  first) and cuts the list at `top_k`.
- **Agent tools** (`tools.dfy`). These are three tools:
  - diagnosis-code enrichment, with default descriptions for unknown codes;
  - payer-policy lookup, which normalises its keys, merges the search hits
    with the structured table entry, and answers `not_found` only when both
    are missing;
  - the approval prediction, which flags human review below confidence 70.
- **Case store** (`cases.dfy`). It covers:
  - what case submission does once the agent has run: the last
    `predict_approval` result wins, the status is one of `pending_review`,
    `auto_approved` (85 or more) or `ready_to_submit`, and the case joins
    the review queue exactly when review is required;
  - review submission: 404 for an unknown case, otherwise the first
    occurrence of the case leaves the queue;
  - the review-queue listing;
  - the per-status counts of the statistics.

  An invariant ties the queue to the stored statuses.

The transcendental and rounding functions (`math.log`, the square root
inside `np.linalg.norm`, `round(x, 4)`) are not defined. They are fields of
`Numerics.Ops`, and the ghost predicate `Numerics.Lawful` lists the few
laws the proofs use. Everything else is computed exactly, on unbounded
integers and reals.

Where the documentation and the code disagree, the model follows the code:

- Search results carry the document content with surrounding whitespace
  removed (`.strip()`), not the full content.
- `results[:top_k]` with a negative `top_k` is a Python slice from the end,
  not an empty list. The model takes a non-negative `top_k`.

## Model

| member | source | states |
|---|---|---|
| Text.Strip | rag_engine.py:460 | the stripped content has no leading or trailing whitespace, is a prefix of the text after its leading whitespace, drops only whitespace at the end, and is empty exactly when the text is all whitespace |
| Text.StrLessTransitive | rag_engine.py:393 | the string order `sorted` uses is transitive |
| Text.StrLessTotal | rag_engine.py:393 | any two distinct strings are ordered one way or the other |
| Tokenizer.RunsFrom | rag_engine.py:362 | every piece `re.findall(r'[a-z0-9]+')` returns is a non-empty run of token characters |
| Tokenizer.RunsKeepTokenChars | rag_engine.py:362 | the runs, concatenated, are exactly the token characters of the text in input order |
| Tokenizer.RunsOfWord | rag_engine.py:362 | a run of token characters is returned whole, as a single match |
| Tokenizer.RunsAtSeparator | rag_engine.py:362 | a separator character splits the scan: the matches of `s + c + t` are those of `s` followed by those of `t` |
| Tokenizer.Keep | rag_engine.py:363 | the list comprehension keeps exactly the tokens that are not stopwords and are longer than one character |
| Tokenizer.KeepAppend | rag_engine.py:363 | the filter works token by token, so it distributes over concatenation |
| Tokenizer.TokenizeWith | rag_engine.py:347-363 | every token is a non-empty run of `[a-z0-9]`, neither a stopword nor a single character, and a string is a token exactly when it is such a run of the lower-cased text |
| Tokenizer.TokenizeAtSeparator | rag_engine.py:362-363 | the tokens of two texts joined by a separator are the tokens of the first followed by those of the second, so token order follows input order |
| Tokenizer.TokenizeWord | rag_engine.py:362-363 | a lower-case word is its own only token unless it is a stopword or one character long |
| Vectors.DotNonNegative | rag_engine.py:454 | the dot product of two non-negative vectors is non-negative |
| Vectors.DotZero | rag_engine.py:454 | the dot product with a zero vector is 0 |
| Vectors.Normalize | rag_engine.py:413-416 | dividing by the norm when it is positive keeps the dimension and the sign of every coordinate, so zero coordinates stay zero |
| Vocabulary.AllTokensSnoc | rag_engine.py:390-392 | adding the documents' tokens one document at a time, as the loop does, gives the set of all tokens occurring in some document |
| Vocabulary.InsertSorted | rag_engine.py:393 | inserting into a strictly sorted list keeps it strictly sorted and adds exactly the new token |
| Vocabulary.SortedTokens | rag_engine.py:393 | `sorted(all_tokens)` is strictly increasing and holds exactly the document tokens |
| Vocabulary.SortedUnique | rag_engine.py:393 | two strictly sorted lists with the same elements are equal, so the sorted vocabulary does not depend on insertion order |
| Vocabulary.VocabBijection | rag_engine.py:393 | `enumerate(sorted(...))` maps the tokens one-to-one onto `0..N-1`, inverse to list indexing, in increasing string order |
| Vocabulary.SortedVocabulary | rag_engine.py:389-393 | the vocabulary's keys are the document tokens, numbered bijectively onto `0..N-1` in sorted order |
| Weighting.Containing | rag_engine.py:397-399 | the number of documents containing a token is at most the number of documents and positive exactly for tokens that occur |
| Weighting.DocFreq | rag_engine.py:396-399 | the document-frequency table has exactly the document tokens as keys, each with its document count, between 1 and the number of documents |
| Weighting.Idf | rag_engine.py:400-403 | the IDF table has the same keys as the document-frequency table |
| Weighting.IdfBounds | rag_engine.py:400-403 | with a lawful log every IDF is at least 1, and a token in fewer documents never weighs less |
| Weighting.Count | rag_engine.py:409 | a token's count is positive exactly when it occurs |
| Weighting.Distinct | rag_engine.py:409 | the keys of `Counter(tokens)` are the tokens without repetition |
| Weighting.TermWeightAtLeastOne | rag_engine.py:411-412 | `(1 + log(count)) * idf` is at least 1 for a positive count and an IDF of at least 1 |
| Weighting.RawVectorAt | rag_engine.py:407-412 | after the loop, a vocabulary position holds its token's weight if the token was counted and 0 otherwise, and a position no token owns stays 0 |
| Weighting.TfIdfVector | rag_engine.py:405-417 | a document vector has the vocabulary's dimension |
| Weighting.VectorSupport | rag_engine.py:405-417 | with lawful numerics the vector is non-negative, and a vocabulary position is non-zero exactly when its token occurs |
| Weighting.UnknownTokensIgnored | rag_engine.py:441-443 | tokens outside the vocabulary do not change the vector |
| Weighting.NoKnownTokenZeroVector | rag_engine.py:437-446 | a token list with no vocabulary token gives the zero vector |
| TfIdfIndex.BuildIndex | rag_engine.py:386-417 | the index is the sorted vocabulary, the IDF table of the document frequencies and the document vectors, with vocabulary indexes inside the dimension |
| TfIdfIndex.BuildIndexVocabulary | rag_engine.py:389-393 | the built vocabulary is a sorted bijection from the corpus tokens onto `0..N-1` |
| TfIdfIndex.BuildIndexIdf | rag_engine.py:395-403 | the IDF keys are the vocabulary keys, so the `.get(token, 1)` default is never used, and every IDF is at least 1 |
| TfIdfIndex.BuildIndexShape | rag_engine.py:393-403 | vocabulary indexes are inside the dimension and distinct, and every IDF is at least 1 |
| TfIdfIndex.DocumentVector | rag_engine.py:405-417 | a document's vector has the vocabulary's dimension, is non-negative, and is non-zero exactly at the tokens of that document |
| TfIdfIndex.BuildIndexVectors | rag_engine.py:405-417 | the same holds for every document of the corpus |
| TfIdfIndex.BuildIndexWellFormed | rag_engine.py:379-420 | the built index satisfies the vocabulary, IDF and vector invariants together |
| Ranking.InsertByScore | rag_engine.py:465 | insertion into a descending list keeps it descending and adds exactly one element |
| Ranking.InsertByScoreStable | rag_engine.py:465 | an inserted result goes after every result of equal score |
| Ranking.SortByScore | rag_engine.py:465 | the sort returns a descending permutation of its input |
| Ranking.SortByScoreStable | rag_engine.py:465 | results with equal scores keep their input order |
| Ranking.SortedByClassesUnique | rag_engine.py:465 | two descending lists with the same order inside every score class are equal, so the stable sort is determined |
| Ranking.TopK | rag_engine.py:466 | `results[:top_k]` is a prefix of length `min(top_k, len)` |
| Ranking.TopKIsBest | rag_engine.py:466 | nothing the cut drops scores higher than anything it keeps |
| Ranking.Rank | rag_engine.py:465-466 | sort-then-cut returns `min(top_k, len)` results in descending order, all from the input, in input order within each score, and none dropped scores higher than one kept |
| Ranking.RankSorted | rag_engine.py:465-466 | an input already in descending order is simply cut |
| RagEngine.NewEngine | rag_engine.py:372-377 | a fresh engine holds the given corpus, an empty vocabulary, IDF table and vector list, and is not initialised |
| RagEngine.NewEngineFirstSearch | rag_engine.py:372-435 | a fresh engine meets the search precondition, and its first search builds the index over the corpus and marks the engine initialised |
| RagEngine.Initialize | rag_engine.py:379-420 | the engine is initialised over the same documents with the index built from them, and an engine already initialised is returned unchanged |
| RagEngine.InitializeWellFormed | rag_engine.py:379-420 | after initialisation the index satisfies all index invariants |
| RagEngine.InitializeIdempotent | rag_engine.py:381-382 | initialising twice is the same as initialising once |
| RagEngine.MatchingFrom | rag_engine.py:450-452 | the documents kept from a position on are in range, pass the filter, are in increasing order, and include every passing document |
| RagEngine.MatchingExact | rag_engine.py:450-452 | a document is kept exactly when there is no filter, the filter is empty, or its payer id equals the filter |
| RagEngine.QueryVector | rag_engine.py:437-446 | the query vector has the vocabulary's dimension |
| RagEngine.Candidates | rag_engine.py:448-462 | one result record per kept document, in corpus order, scored by the rounded dot product with that document's vector |
| RagEngine.Search | rag_engine.py:422-466 | the search first initialises the engine, returns `min(top_k, #kept)` results, and those results are the ranked candidates |
| RagEngine.CandidatesSound | rag_engine.py:450-461 | every candidate is the record of a document the filter keeps |
| RagEngine.SearchRespectsFilter | rag_engine.py:450-466 | every search result is the record of a corpus document the filter keeps |
| RagEngine.SearchScoresNonNegative | rag_engine.py:454-461 | with lawful numerics every similarity score is non-negative |
| RagEngine.ZeroQueryCandidates | rag_engine.py:454-461 | a zero query vector scores every candidate 0, so the candidates are already in order |
| RagEngine.SearchUnknownQuery | rag_engine.py:437-466 | a query with no vocabulary token returns the first `top_k` kept documents in corpus order, each scoring 0 |
| RagEngine.SearchEmptyQuery | rag_engine.py:437-466 | the empty query does the same |
| AgentTools.EnrichIcd10 | main.py:229-232 | one diagnosis per ICD-10 code, in order, with the table's description and category, or `"Unknown code"` and `"unknown"` |
| AgentTools.EnrichCpt | main.py:234-237 | one procedure per CPT code, in order, with the table's description, or `"Unknown procedure"` |
| AgentTools.ExtractDiagnosis | main.py:227-245 | a report with as many diagnoses and procedures as codes given (none when the key is missing), and the summary fields defaulting to `""` |
| AgentTools.EnrichIcd10Append | main.py:229-232 | enrichment is code by code, so it distributes over concatenation of code lists |
| AgentTools.NormalizeKey | main.py:250-251 | the normalised key keeps the length, turns every space into `_`, lower-cases every other character, and so has no space and no upper-case letter |
| AgentTools.NormalizeKeyIdempotent | main.py:250-251 | normalising a normalised key changes nothing |
| AgentTools.StructuredPolicy | main.py:258-261 | a structured entry is found exactly when the payer is in the table and has a truthy entry under the procedure key, and it is that entry |
| AgentTools.Respond | main.py:263-296 | `not_found` exactly when there are no search hits and no structured entry, with the message naming both keys; otherwise one hit per search result with its id and score, and a structured block exactly when an entry was found |
| AgentTools.LookupPayerPolicy | main.py:248-296 | `not_found` exactly when the search found nothing and the table has no truthy entry under the normalised keys; a found response reports the normalised keys |
| AgentTools.LookupNormalizedArgs | main.py:250-251 | arguments that are already normalised give the same response |
| AgentTools.UpperCaseKeyUnreachable | main.py:251 | a table key with an upper-case letter never equals a normalised procedure type |
| AgentTools.MixedCaseLookupNotFound | main.py:258-267 | with the table's `"MRI"` key and no search hit, a request for `"MRI"` answers `not_found` |
| AgentTools.FoldedPolicy | main.py:258-261 | the corrected lookup returns the exact entry when present, otherwise one whose normalised key matches, and nothing only when neither exists |
| AgentTools.LookupPayerPolicyFolded | main.py:248-296 | the corrected tool answers `not_found` only without search hits, and finds the structured entry of any key whose normal form is requested |
| AgentTools.MixedCaseKeyReachable | main.py:251 | the `"MRI"` key is reachable from the request `"MRI"` once keys are compared in normal form |
| AgentTools.PolicyLookup | main.py:248-296 | the whole tool as written leaves the engine initialised; it answers `not_found` exactly when its search (`top_k` 2, payer filter) found nothing and the table has no entry under the exact normalised keys; a found response reports one result per hit, with the hit's document and score, and carries the structured block exactly when that entry exists |
| AgentTools.PolicyHits | main.py:254-255 | the tool's search, with `top_k` 2, returns at most two hits |
| AgentTools.PolicyLookupFolded | main.py:248-296 | the corrected whole tool: `not_found` only when the search found nothing, at most two reported results, and the structured block whenever the payer has a truthy entry reachable from the requested procedure |
| AgentTools.MixedCaseLookupNoStructured | main.py:258-286 | with the table's `"MRI"` key and at least one search hit, a request for `"MRI"` answers `success` without the structured policy |
| AgentTools.PredictApproval | main.py:355-366 | the confidence defaults to 50, human review is required exactly when the confidence is below 70, and risk level and recommendation default to `"medium"` and `"revise"` |
| CaseStore.LastOf | main.py:537-540 | the position found is the last result of the named tool, or no result has that tool |
| CaseStore.SummarizeLastWins | main.py:533-542 | the last `predict_approval` result sets the confidence and the review flag, the last `draft_auth_request` result sets the letter, and the defaults 50, no review and `""` stand otherwise |
| CaseStore.Classify | main.py:544 | the status is `pending_review` exactly when review is required, otherwise `auto_approved` at confidence 85 or more, else `ready_to_submit` |
| CaseStore.ClassifyPrediction | main.py:537-544 | with the prediction tool's own output last, the status is pending below 70, ready to submit from 70 to 84, and auto-approved from 85 |
| CaseStore.SubmitCase | main.py:514-557 | the case is stored under its id with its submission and timestamp, unreviewed, and nothing else changes; a failed run marks it `error` with the message, stores no agent output and answers 500 `"Agent error: …"`; otherwise the case stores the tool results, the confidence, the review flag and the letter taken from them and no error, its status comes from them, and the id is appended to the queue exactly when the status is `pending_review` |
| CaseStore.RemoveFirst | main.py:588-589 | removal drops the first occurrence and keeps everything else in order, and leaves a queue without the id unchanged |
| CaseStore.SubmitReview | main.py:578-591 | an unknown case answers 404 and changes nothing; otherwise only that case changes: it takes the decision as status, the notes and the review time, keeps every other field, and its first occurrence leaves the queue |
| CaseStore.Present | main.py:574 | the ids listed are exactly the queued ids still stored, at most as many as the queue, and the whole queue when every queued id is stored |
| CaseStore.PresentAppend | main.py:574 | the filter of a concatenated queue is the concatenation of the filters of its parts, so the kept ids stay in queue order |
| CaseStore.ReviewQueue | main.py:573-574 | one stored case per queued id that is still stored, in queue order |
| CaseStore.EmptyStoreInv | main.py:49-50 | the empty store satisfies the queue invariant |
| CaseStore.SubmitCasePreserves | main.py:514-557 | a submission under a fresh id keeps the queue invariant |
| CaseStore.RemoveFirstNoDuplicates | main.py:588-589 | removal from a duplicate-free queue keeps it duplicate-free and removes exactly that id |
| CaseStore.SubmitReviewPreserves | main.py:578-591 | a review whose decision is not `pending_review` keeps the queue invariant |
| CaseStore.PendingDecisionUnqueues | main.py:582-589 | a review with decision `pending_review` breaks the invariant: the case stays pending but leaves the queue |
| CaseStore.ReviewQueueComplete | main.py:573-574 | under the invariant the listing returns every queued case, in queue order, all pending review |
| CaseStore.BumpStatus | main.py:611-612 | the count of the status goes up by one and every other count stays |
| CaseStore.BumpStatusSum | main.py:611-612 | each increment adds one to the sum of the counts |
| CaseStore.TallyStep | main.py:610-612 | one turn of the counting loop keeps the per-status counts exact |
| CaseStore.GetStats | main.py:607-624 | the total is the number of cases, each status that occurs maps to its number of cases, the counts sum to the total, and pending reviews is the queue length |
| CaseStore.PendingMatchesQueue | main.py:622 | under the invariant the queue length equals the number of `pending_review` cases |

## Left out

- The HTTP layer is not modelled: FastAPI routing, CORS, request validation and the uvicorn server. Handlers are pure functions from a store to a new store and a response.
- The agent run (`run_agent`, the Azure OpenAI client and its tool-calling loop) is not modelled. Its outcome is a parameter, `CaseStore.AgentRun`: either the tool results or the exception message.
- The stored `agent_result` is modelled by its `tool_results` list. The other keys of the agent's result are not read by the handlers and are not modelled.
- `execute_draft_auth_request`, `execute_route_to_human`, `list_cases`, `get_case` and the `rag_search` endpoint are left out: they only format or return stored data.
- The generated case id (`uuid4`) and the timestamps (`datetime.now`) are parameters.
- The average confidence of the statistics is left out because it is floating-point division and rounding. The model keeps the total, the per-status counts and the pending count.
- `math.log`, the square root in `np.linalg.norm` and `round(x, 4)` are uninterpreted (`Numerics.Ops`). Their exact values are not modelled, only the laws in `Numerics.Lawful`. In particular the model does not state that a normalised vector has norm 1.
- RagEngine.Search: `top_k` is a natural number. A negative `top_k`, which Python would treat as a slice from the end, is not modelled.
- Lower-casing is ASCII only. `str.lower()` on other Unicode letters and the Unicode whitespace of `str.strip()` are not modelled.
- The payer-policy table, the ICD-10 table, the CPT table and the policy corpus are inputs, not the shipped constants. The one exception is the `"MRI"` key, which is used as a concrete example.
- A policy entry is modelled with the keys the lookup reads. Its truthiness means "has at least one of these keys".
- Confidence scores are integers. A float confidence passed by the model is not modelled.
- The `print` calls, and the swallowing of startup exceptions when the engine is created, are left out.
- Tokenizer.Tokenize: its properties are stated on `TokenizeWith` for any stopword set, and `Tokenize` is that function with the fixed set.
- CaseStore.SubmitCasePreserves: requires a fresh case id. A `uuid4` prefix collision, which would overwrite a stored case, is not modelled.

## Findings

| source | as written | input that shows it | evidently intended | confidence | as-written member | corrected member |
|---|---|---|---|---|---|---|
| main.py:251 | the procedure type is lower-cased and then looked up verbatim, but the payer table keys the MRI policies as `"MRI"` (payer_policies.py:10), the value the tool schema gives as its example; a key with an upper-case letter can never match | payer `"united_healthcare"`, procedure `"MRI"`. The shipped corpus has four `united_healthcare` documents and the search has no score threshold, so the top-2 search always returns hits: the user sees `success` without `structured_policy` (MixedCaseLookupNoStructured). `not_found` happens only when no document matches, for example with an empty corpus (MixedCaseLookupNotFound) | the structured MRI policy is found when asked for by name | not executed | AgentTools.MixedCaseLookupNoStructured | AgentTools.PolicyLookupFolded |

# Trip-plan post-processing, modelled in Dafny

This project models the part of the travel-planning backend that has real
logic: `RAGServiceStrict.generate_trip_plan` in
`backend/services/rag_service_strict.py`, together with the schema records it
produces. The language-model call, retrieval and the HTTP layer are outside
the model. What is modelled is:

- how the natural-language trip request is assembled;
- how the model's raw reply is turned into a `PlanOutput`. The reply is
  parsed strictly. If that raises a validation error, the first-`{`-to-last-`}`
  (or `[`…`]`) region is extracted and decoded, every item's `est_cost` is
  repaired, and the result is validated again;
- how `estimate.total` is filled in;
- how the `ExtraInfo` summary is built: `changes`, `best_time_to_visit` and
  `tickets`.

Modules, leaf to root:

- `Schema` (`schema.dfy`): the records `Item`, `Day`, `Estimate`, `ExtraInfo` and
  `PlanOutput`, the error kinds, and `Flatten`/`Names` over an itinerary.
- `ExtractJson` (`extract_json.dfy`): `_safe_extract_json`, with the two greedy
  regular expressions stated over indices and proved to be the leftmost-longest
  match.
- `Request` (`request.dfy`): the user-request string, Python's `str` of an
  integer, and `", ".join`.
- `CostRepair` (`cost_repair.dfy`): the decoded JSON document, the in-place
  repair loop as a method proved against the `Repaired` specification, and the
  second validation.
- `ExtraInfoBuilder` (`extra_info.dfy`): the last-write-wins index loops, the
  set difference behind `changes`, and the ticket rule.
- `TripPlan` (`trip_plan.dfy`): the whole operation. The model call, the strict
  parser and `json.loads` are function parameters.

The records are immutable values. The source's in-place updates are modelled
as methods that reassign local values: `item["est_cost"] = ...`,
`est.setdefault`, `parsed.estimate.total = ...` and `extra_info.tickets[name] = ...`.
Each such method is proved equal to a specification function.

## Model

| member | source | states |
|---|---|---|
| `ExtractJson.GreedyRegionIsLeftmostLongest` | backend/services/rag_service_strict.py:136-141 | The first-`open`-to-last-`close` region exists iff the pattern `open[\s\S]*close` matches somewhere. When it exists it is a match, and every other match starts later or is no longer: it is the match `re.search` returns. |
| `ExtractJson.SafeExtractJson` | backend/services/rag_service_strict.py:135-142 | Returns the brace region when there is one. Returns the bracket region only when there is no brace region. Fails with the "no JSON" error exactly when neither region exists. |
| `ExtractJson.SafeExtractJsonSpec` | backend/services/rag_service_strict.py:135-142 | Stated in index terms: a `{` before some `}` yields the contiguous substring from the first `{` to the last `}`. Otherwise a `[` before some `]` yields first `[` to last `]`. Otherwise the call raises. |
| `ExtractJson.SafeExtractJsonIdempotent` | backend/services/rag_service_strict.py:135-142 | Extracting from an extracted region returns that region unchanged, for both the brace and the bracket case. |
| `Request.NatToString` | backend/services/rag_service_strict.py:161-162 | The decimal text of a number is non-empty, all digits, and has no leading zero. |
| `Request.IntToStringRoundTrip` | backend/services/rag_service_strict.py:161-162 | `IntToString`, Python's `str` of an integer, loses nothing: parsing its output gives back the same integer, negative ones included. |
| `Request.JoinContainsParts` | backend/services/rag_service_strict.py:158 | `", ".join(preferences)` contains every preference. Its length is the sum of the parts' lengths plus one separator between each pair. |
| `Request.PreferenceAndDateFallbacks` | backend/services/rag_service_strict.py:157-163 | A missing or empty preference list gives the literal "tổng hợp". A non-empty list puts every preference into the text. A missing or empty start date gives "chưa xác định". A non-empty date is used as given. |
| `Request.UserRequestMentions` | backend/services/rag_service_strict.py:160-165 | The request contains the day count, the traveller count, the departure, the destination, the budget, the preference text and the date (or its fallback). |
| `CostRepair.WithDefaults` | backend/services/rag_service_strict.py:226-227 | After the three `setdefault` calls: the key set is the old keys plus `activity`, `accommodation` and `transportation`. Existing keys keep their values. Added keys are 0. |
| `CostRepair.SetDefaults` | backend/services/rag_service_strict.py:226-227 | The `for key in [...]: est.setdefault(key, 0)` loop leaves exactly `WithDefaults` of the map. |
| `CostRepair.NormalizeCost` | backend/services/rag_service_strict.py:218-227 | A bare integer `n` becomes exactly `{activity: n, accommodation: 0, transportation: 0}`. A map gains the missing keys as 0 and keeps its own values. An absent cost stays absent: the `{}` returned by `get` is never stored back. |
| `CostRepair.Repaired` | backend/services/rag_service_strict.py:216-227 | The repaired document differs from the decoded one only in the items' `est_cost`. Tips, estimate, extra info, day numbers, dates, item order and every other item field are unchanged. A missing `itinerary` or `items` key is skipped. |
| `CostRepair.RepairCosts` | backend/services/rag_service_strict.py:216-227 | The nested repair loop raises AttributeError exactly when some visited `est_cost` is neither absent, an integer nor a map (null included: `None.setdefault` raises). Otherwise it yields `Repaired(doc)`. |
| `CostRepair.RepairedIdempotent` | backend/services/rag_service_strict.py:216-227 | Running the repair on a repaired document changes nothing. |
| `CostRepair.Validate` | backend/services/rag_service_strict.py:229 | `parse_obj` succeeds exactly when `itinerary`, `estimate` and every day's `items` are present and every `est_cost` is absent, an object or null. An absent `tips` becomes `[]` (line 54) and a null one stays None. Estimate and extra info are carried over. Each day keeps its number, date and items in order. An object cost is kept, a null cost is None, and an absent cost takes the all-zero default of lines 28-30. |
| `CostRepair.RepairThenValidate` | backend/services/rag_service_strict.py:216-230 | After a repair that did not raise, re-validation fails only for missing structure, never for a cost. Every item of the validated plan has all three cost keys. An absent cost becomes the all-zero schema default. An integer `n` becomes `(n, 0, 0)`. A map keeps its values and gains the missing keys as 0. |
| `ExtraInfoBuilder.ActivityCost` | backend/services/rag_service_strict.py:256 | The ticket value is `est_cost["activity"]` when present, and 0 when the key or the whole `est_cost` is missing. |
| `ExtraInfoBuilder.IndexByLastWins` | backend/services/rag_service_strict.py:249-256 | A name-keyed map filled in visiting order has exactly one key per distinct item name. Each key holds the value of the last item with that name. |
| `ExtraInfoBuilder.EveryNameHasLastOccurrence` | backend/services/rag_service_strict.py:249-256 | Every item name has a last occurrence, so each key's value is determined by one item. |
| `ExtraInfoBuilder.IndexItinerary` | backend/services/rag_service_strict.py:249-256 | The nested `for day ... for item ...: m[item.name] = value(item)` loop leaves `IndexBy` of the items in day-then-item order. |
| `ExtraInfoBuilder.ListOfSet` | backend/services/rag_service_strict.py:246 | `list(s)` contains every element of `s` exactly once. |
| `ExtraInfoBuilder.BuildExtraInfo` | backend/services/rag_service_strict.py:240-258 | Without `current_plan`, `changes` stays empty. With one, it lists the new plan's names minus the old plan's names, without duplicates. `best_time_to_visit` maps names to times and `tickets` maps names to activity costs, both last-write-wins. |
| `ExtraInfoBuilder.SummaryMapsLastWins` | backend/services/rag_service_strict.py:249-256 | `best_time_to_visit` and `tickets` both have exactly the plan's item names as keys. Each value comes from the name's last occurrence. |
| `Schema.NamesOfItinerary` | backend/services/rag_service_strict.py:244-245 | A name is in `{item.name for day in ... for item in day.items}` exactly when some item of some day carries it. |
| `ExtraInfoBuilder.ChangesExample` | backend/services/rag_service_strict.py:243-246 | A previous plan with items {A, B} and a new plan with {B, C} give changes {C}. |
| `ExtraInfoBuilder.TicketsAsWrittenAgrees` | backend/services/rag_service_strict.py:254-256 | The tickets loop as written raises exactly when some item has no `est_cost` at all. Whenever it succeeds, it gives the same map as the corrected rule. |
| `ExtraInfoBuilder.NullCostBreaksTickets` | backend/services/rag_service_strict.py:256 | On a schema-valid item with `est_cost` null, the written loop raises and the corrected rule records 0. |
| `TripPlan.AutoFillTotal` | backend/services/rag_service_strict.py:232-237 | When `total` is absent or 0 it becomes `activity + accommodation + transportation`. A nonzero total is kept even if inconsistent. The components never change. |
| `TripPlan.AutoFillTotalConsistent` | backend/services/rag_service_strict.py:232-237 | After the fill, the total is the sum of the components unless the model supplied a nonzero total. Filling twice changes nothing. |
| `TripPlan.ParseReply` | backend/services/rag_service_strict.py:209-229 | Strict success is used as is. A non-validation failure escapes. A validation failure goes through extract, decode, repair and re-validate, and each stage's error propagates. |
| `TripPlan.FinishPlan` | backend/services/rag_service_strict.py:231-260 | On a parsed plan: itinerary and tips are kept. The total is auto-filled as `AutoFillTotal` states. The attached `ExtraInfo` has `changes` = new names minus old names, each once, and last-write-wins `best_time_to_visit` and `tickets` over the plan's items. |
| `TripPlan.ProcessReply` | backend/services/rag_service_strict.py:209-260 | A parse error is returned unchanged. Otherwise the result has the parsed itinerary and tips, the auto-filled estimate, and an attached `ExtraInfo` as `BuildExtraInfo` states. |
| `TripPlan.GenerateTripPlan` | backend/services/rag_service_strict.py:145-260 | The model is called on `UserRequest(...)`, and its reply is finished as `ProcessReply` states. |
| `TripPlan.RepairedPlanHasFullCosts` | backend/services/rag_service_strict.py:211-229 | When the reply goes through the repair path, every item of the returned plan has `activity`, `accommodation` and `transportation` in its `est_cost`. |
| `TripPlan.NoJsonMeansNoPlan` | backend/services/rag_service_strict.py:139-142 | A reply that fails strict validation and has no brace or bracket region ends in the extractor's ValueError. |
| `TripPlan.BracketFallbackNeverYieldsPlan` | backend/services/rag_service_strict.py:139-141 | If `json.loads` never decodes a `[`-led text to an object, a reply without a brace region never yields a plan. The bracket fallback's result reaches `data.get`, which a list does not have. |

## Left out

- The model call, the prompt template and the output parser's format instructions are left out (lines 91-132, 199-206). `GenerateTripPlan` takes the call as a function from the user request to the raw reply.
- Retrieval is left out. Both the places lookup and the vector-index search are swallowed on failure (lines 167-197). The retrieved support text and its 4000-character cut are folded into that same function.
- Service construction, configuration and credentials (lines 61-88) are not modelled.
- `parser.parse` is an input, `StrictOutcome`. Which exception LangChain's parser actually raises is not modelled: only a pydantic ValidationError leads to the repair path (line 211); anything else escapes.
- `json.loads` is an input function. The decoded document is typed except for `est_cost`: `time`, `name`, `type` and `description` are assumed already to be strings.
- `Validate`: models pydantic's `parse_obj` only for the presence of `itinerary`, `estimate` and `items`, the kind of each `est_cost` (absent, object, null, other) and the `tips` default. Pydantic's coercions are not modelled: booleans as integers, floats, strings of digits. A JSON boolean `est_cost` is not distinguished from other values, although Python's `isinstance(True, int)` holds.
- An `extra_info` object in the model's reply is carried through validation. It is always overwritten at line 258.
- `ExtraInfoBuilder.ChangesExample`: states the set of names in `changes`, not a list order. `list(set)` order depends on string hashing, and the model leaves it arbitrary.
- The two loops of the same shape at lines 249-251 and 254-256 are one generic method, `IndexItinerary`, called with the value each stores. The second loop's `est_cost.get` can raise, and the generic method does not model that: see the next three lines.
- `BuildExtraInfo`: computes `tickets` with the corrected `ActivityCost`. An item whose `est_cost` is None gets 0 there, where line 256 as written raises AttributeError. The as-written loop is `TicketsAsWritten`, and `TicketsAsWrittenAgrees` states exactly when the two differ.
- `ProcessReply`: inherits the corrected tickets from `BuildExtraInfo`. A strictly parsed plan with a null `est_cost` returns a plan with ticket 0, where the source raises AttributeError at line 256. On the repair path a null cost already raises at line 227, in both the source and the model.
- `FinishPlan`: inherits the same correction from `BuildExtraInfo`, and `ProcessReply` calls it.
- `GenerateTripPlan`: inherits the same correction from `ProcessReply`.
- The Vietnamese text of the ValueError and the f-string rendering of `start_date` beyond "present or not" are not modelled. The error kind is kept. Default argument values (`travelers=1`, `days=3`, `budget=1000`) belong to the caller, and the model takes explicit values.
- Two behaviours differ from what one might expect; the model follows the code:
  - Extraction is a greedy first-to-last match, not a balanced-bracket scan.
  - `est_cost` is repaired only on the validation-error path. A reply that passes strict validation keeps partial cost maps. `RepairedPlanHasFullCosts` is therefore stated for the repair path only.

## Findings

| source | as written | input that shows it | evidently intended | confidence | as-written member | corrected member |
|---|---|---|---|---|---|---|
| backend/services/rag_service_strict.py:256 | `item.est_cost.get("activity", 0)` dereferences `est_cost`, which the schema at line 28 declares `Optional`. | A reply that passes strict validation with one item whose `"est_cost"` is `null`. Line 256 then raises AttributeError, and the whole generation fails. | Read a missing `est_cost` as 0, as the `.get(..., 0)` default already does for a missing key. | medium, not executed | `ExtraInfoBuilder.NullCostBreaksTickets` | `ExtraInfoBuilder.SummaryMapsLastWins` |

`ExtraInfoBuilder.TicketsAsWritten` is the loop as written. `ExtraInfoBuilder.ActivityCost` is the corrected rule, and `BuildExtraInfo`, `ProcessReply` and `GenerateTripPlan` use it. `TicketsAsWrittenAgrees` proves that the two agree wherever the written loop does not raise.

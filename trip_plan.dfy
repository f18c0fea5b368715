/** `RAGServiceStrict.generate_trip_plan`: compose the request, take the
    model's reply, parse it strictly or repair it, fill in the estimate total
    and attach the derived summary. */
module TripPlan {
  import opened Schema
  import opened Request
  import opened ExtractJson
  import opened CostRepair
  import opened ExtraInfoBuilder

  /** How `self.parser.parse(raw_output)` ended: a plan, the pydantic
      ValidationError that sends the reply to the repair path, or any other
      exception, which escapes. */
  datatype StrictOutcome = Parsed(plan: PlanOutput) | ValidationFailed | ParseFailed

  /** `total` is set to the sum of the three components when it is absent or
      zero; a nonzero total is kept even when it disagrees with them. */
  function AutoFillTotal(e: Estimate): (r: Estimate)
    ensures r.accommodation == e.accommodation && r.transportation == e.transportation && r.activity == e.activity
    ensures e.total == None || e.total == Some(0) ==> r.total == Some(e.activity + e.accommodation + e.transportation)
    ensures e.total.Some? && e.total.value != 0 ==> r.total == e.total
  {
    match e.total
    case Some(t) => if t != 0 then e else e.(total := Some(e.activity + e.accommodation + e.transportation))
    case None => e.(total := Some(e.activity + e.accommodation + e.transportation))
  }

  /** The plan the parse step yields, before the total and the summary. */
  ghost function ParseOutput(raw: string, strict: StrictOutcome, loads: string -> Option<RawDoc>): Result<PlanOutput>
  {
    match strict
    case Parsed(p) => Ok(p)
    case ParseFailed => Err(ParserError)
    case ValidationFailed =>
      match SafeExtractJson(raw)
      case Err(e) => Err(e)
      case Ok(json) =>
        match loads(json)
        case None => Err(JsonDecodeError)
        case Some(NonObjectDoc) => Err(AttributeError)
        case Some(ObjectDoc(doc)) => if HasBadCost(doc) then Err(AttributeError) else Validate(Repaired(doc))
  }

  /** Lines 209-229: the strict parse, and on a validation error the
      extract, decode, repair and re-validate sequence. */
  method ParseReply(raw: string, strict: StrictOutcome, loads: string -> Option<RawDoc>)
    returns (r: Result<PlanOutput>)
    ensures r == ParseOutput(raw, strict, loads)
  {
    match strict {
      case Parsed(p) =>
        return Ok(p);
      case ParseFailed =>
        return Err(ParserError);
      case ValidationFailed =>
        var json := SafeExtractJson(raw);
        if json.Err? {
          return Err(json.error);
        }
        var data := loads(json.value);
        if data.None? {
          return Err(JsonDecodeError);
        }
        if data.value.NonObjectDoc? {
          return Err(AttributeError);
        }
        var repaired := RepairCosts(data.value.plan);
        if repaired.Err? {
          return Err(repaired.error);
        }
        r := Validate(repaired.value);
    }
  }

  /** `r` is what the operation returns once parsing ended in `parsed`: the
      same error, or the parsed plan with its total filled in and the
      summary attached. */
  ghost predicate Completes(r: Result<PlanOutput>, parsed: Result<PlanOutput>, currentPlan: Option<PlanOutput>)
  {
    && (parsed.Err? ==> r == parsed)
    && (parsed.Ok? ==> r.Ok? && Finished(r.value, parsed.value, currentPlan))
  }

  /** `p` is `parsed` with its total filled in and the summary attached. */
  ghost predicate Finished(p: PlanOutput, parsed: PlanOutput, currentPlan: Option<PlanOutput>)
  {
    && p.itinerary == parsed.itinerary
    && p.tips == parsed.tips
    && p.estimate == AutoFillTotal(parsed.estimate)
    && p.extraInfo.Some?
    && ChangesMatch(p.extraInfo.value.changes, p.itinerary, currentPlan)
    && p.extraInfo.value.bestTimeToVisit == IndexBy(Flatten(p.itinerary), TimeOf)
    && p.extraInfo.value.tickets == IndexBy(Flatten(p.itinerary), ActivityCost)
  }

  /** Lines 231-260: the total auto-fill and the summary, on a parsed plan. */
  method FinishPlan(parsed: PlanOutput, currentPlan: Option<PlanOutput>) returns (p: PlanOutput)
    ensures Finished(p, parsed, currentPlan)
  {
    p := parsed;
    if p.estimate.total == None || p.estimate.total == Some(0) {
      var e := p.estimate;
      p := p.(estimate := e.(total := Some(e.activity + e.accommodation + e.transportation)));
    }
    var extra := BuildExtraInfo(p.itinerary, currentPlan);
    p := p.(extraInfo := Some(extra));
  }

  /** Lines 209-260: everything after the model call. */
  method ProcessReply(raw: string, strict: StrictOutcome, loads: string -> Option<RawDoc>,
                      currentPlan: Option<PlanOutput>)
    returns (r: Result<PlanOutput>)
    ensures Completes(r, ParseOutput(raw, strict, loads), currentPlan)
  {
    var result := ParseReply(raw, strict, loads);
    if result.Err? {
      return result;
    }
    var finished := FinishPlan(result.value, currentPlan);
    return Ok(finished);
  }

  /** The whole operation. `complete` is the model call: it maps the user
      request to the raw reply (the retrieved support text and the schema
      instructions it is also given are folded into it); `strictParse` is the
      output parser and `loads` is `json.loads`. */
  method GenerateTripPlan(departure: string, destination: string, travelers: int, days: int, budget: int,
                          preferences: Option<seq<string>>, startDate: Option<string>,
                          currentPlan: Option<PlanOutput>,
                          complete: string -> string,
                          strictParse: string -> StrictOutcome,
                          loads: string -> Option<RawDoc>)
    returns (r: Result<PlanOutput>)
    ensures var raw := complete(UserRequest(departure, destination, travelers, days, budget, preferences, startDate));
      Completes(r, ParseOutput(raw, strictParse(raw), loads), currentPlan)
  {
    var request := UserRequest(departure, destination, travelers, days, budget, preferences, startDate);
    var raw := complete(request);
    r := ProcessReply(raw, strictParse(raw), loads, currentPlan);
  }

  /** On the repair path every item of the returned plan carries all three
      cost keys. (The strict path does no repair, so there this holds only
      if the model's reply already had them.) */
  lemma RepairedPlanHasFullCosts(raw: string, loads: string -> Option<RawDoc>)
    requires ParseOutput(raw, ValidationFailed, loads).Ok?
    ensures var days := ParseOutput(raw, ValidationFailed, loads).value.itinerary;
      forall d, i :: 0 <= d < |days| && 0 <= i < |days[d].items| ==> FullCost(days[d].items[i].estCost)
  {
    var doc := loads(SafeExtractJson(raw).value).value.plan;
    RepairThenValidate(doc);
  }

  /** A reply that fails strict validation and has neither a `{`...`}` nor a
      `[`...`]` region ends in the extractor's ValueError. */
  lemma NoJsonMeansNoPlan(raw: string, loads: string -> Option<RawDoc>)
    requires !HasRegion(raw, '{', '}') && !HasRegion(raw, '[', ']')
    ensures ParseOutput(raw, ValidationFailed, loads) == Err(NoJsonFound)
  {
    SafeExtractJsonSpec(raw);
  }

  /** `json.loads` never turns a text that starts with `[` into an object. */
  ghost predicate ArraysDecodeToArrays(loads: string -> Option<RawDoc>)
  {
    forall s :: |s| > 0 && s[0] == '[' ==> loads(s).None? || loads(s).value.NonObjectDoc?
  }

  /** The bracket fallback can never produce a plan: what it extracts starts
      with `[`, decodes (if at all) to a list, and `data.get` on a list raises. */
  lemma BracketFallbackNeverYieldsPlan(raw: string, loads: string -> Option<RawDoc>)
    requires ArraysDecodeToArrays(loads)
    requires !HasRegion(raw, '{', '}')
    ensures ParseOutput(raw, ValidationFailed, loads).Err?
  {
    SafeExtractJsonSpec(raw);
    if HasRegion(raw, '[', ']') {
      var json := SafeExtractJson(raw).value;
      assert json[0] == '[';
    }
  }

  /** After the auto-fill the total equals the sum of the components unless
      the model supplied a nonzero total, and filling twice changes nothing. */
  lemma AutoFillTotalConsistent(e: Estimate)
    ensures var r := AutoFillTotal(e);
      r.total == Some(r.activity + r.accommodation + r.transportation) || (r.total == e.total && e.total != Some(0) && e.total.Some?)
    ensures AutoFillTotal(AutoFillTotal(e)) == AutoFillTotal(e)
  {
  }
}

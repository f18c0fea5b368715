/** The records the trip-planning service validates and returns, and the error
    kinds the post-processing of a language-model reply can end in. */
module Schema {

  datatype Option<+T> = None | Some(value: T)

  /** The exceptions `generate_trip_plan` can let escape after the model call. */
  datatype Error =
    | ParserError       // the strict parser failed with something other than a validation error
    | NoJsonFound       // ValueError raised by the JSON extractor
    | JsonDecodeError   // json.loads rejected the extracted text
    | AttributeError    // the repair loop called a dict method on something that is not a dict
    | ValidationError   // the repaired document still does not fit the PlanOutput schema

  datatype Result<+T> = Ok(value: T) | Err(error: Error)

  /** One scheduled activity. `kind` is the record's `type` field. */
  datatype Item = Item(
    time: string,
    name: string,
    kind: string,
    description: Option<string>,
    estCost: Option<map<string, int>>)

  datatype Day = Day(day: int, date: Option<string>, items: seq<Item>)

  datatype Estimate = Estimate(accommodation: int, transportation: int, activity: int, total: Option<int>)

  /** The derived summary. Its three fields have default factories and this code
      never stores None in them, so they are plain values here. */
  datatype ExtraInfo = ExtraInfo(
    changes: seq<string>,
    bestTimeToVisit: map<string, string>,
    tickets: map<string, int>)

  datatype PlanOutput = PlanOutput(
    itinerary: seq<Day>,
    tips: Option<seq<string>>,
    estimate: Estimate,
    extraInfo: Option<ExtraInfo>)

  /** The three keys every normalised cost map carries. */
  const CostKeys: seq<string> := ["activity", "accommodation", "transportation"]

  /** The `est_cost` an item gets when the document does not mention it. */
  const DefaultCost: map<string, int> := map["accommodation" := 0, "transportation" := 0, "activity" := 0]

  /** Every item of an itinerary, day by day and, within a day, in order. */
  function Flatten(days: seq<Day>): seq<Item>
  {
    if days == [] then [] else Flatten(days[..|days| - 1]) + days[|days| - 1].items
  }

  function ItemNames(xs: seq<Item>): set<string>
  {
    set it | it in xs :: it.name
  }

  /** The set of item names an itinerary mentions. */
  function Names(days: seq<Day>): set<string>
  {
    ItemNames(Flatten(days))
  }

  lemma {:induction false} FlattenMembership(days: seq<Day>, it: Item)
    ensures it in Flatten(days) <==> exists d :: 0 <= d < |days| && it in days[d].items
  {
    if days != [] {
      var init := days[..|days| - 1];
      FlattenMembership(init, it);
      if it in Flatten(days) && it !in days[|days| - 1].items {
        var d :| 0 <= d < |init| && it in init[d].items;
        assert days[d] == init[d];
      }
      if d :| 0 <= d < |days| && it in days[d].items {
        if d < |init| {
          assert init[d] == days[d];
        }
      }
    }
  }

  /** `{item.name for day in days for item in day.items}`: a name is in the set
      exactly when some item of some day carries it. */
  lemma NamesOfItinerary(days: seq<Day>, n: string)
    ensures n in Names(days) <==> exists d, i :: 0 <= d < |days| && 0 <= i < |days[d].items| && days[d].items[i].name == n
  {
    if n in Names(days) {
      var it :| it in Flatten(days) && it.name == n;
      FlattenMembership(days, it);
    }
    if exists d, i :: 0 <= d < |days| && 0 <= i < |days[d].items| && days[d].items[i].name == n {
      var d, i :| 0 <= d < |days| && 0 <= i < |days[d].items| && days[d].items[i].name == n;
      FlattenMembership(days, days[d].items[i]);
    }
  }
}

/** The repair pass that runs when strict validation of the model's reply
    fails: it walks `itinerary[*].items[*]` of the decoded JSON document and
    rewrites each `est_cost` in place, then the document is validated against
    the schema a second time. */
module CostRepair {
  import opened Schema

  /** What `item.get("est_cost", {})` can find in the decoded document. */
  datatype RawCost =
    | NoCost                      // the key is absent
    | IntCost(n: int)             // a bare JSON integer
    | MapCost(m: map<string, int>) // a JSON object
    | NullCost                    // JSON null: the schema accepts it, `setdefault` does not
    | OtherCost                   // a string, a list or a float: neither accepts it

  /** Costs on which `est.setdefault` raises AttributeError. */
  predicate Unrepairable(c: RawCost)
  {
    c.NullCost? || c.OtherCost?
  }

  /** The `tips` key: absent, JSON null, or a list of strings. */
  datatype RawTips = NoTips | NullTips | TipsList(list: seq<string>)

  datatype RawItem = RawItem(
    time: string,
    name: string,
    kind: string,
    description: Option<string>,
    estCost: RawCost)

  /** `items` is None when the day object has no "items" key. */
  datatype RawDay = RawDay(day: int, date: Option<string>, items: Option<seq<RawItem>>)

  /** `itinerary` and `estimate` are None when the document lacks those keys. */
  datatype RawPlan = RawPlan(
    itinerary: Option<seq<RawDay>>,
    tips: RawTips,
    estimate: Option<Estimate>,
    extraInfo: Option<ExtraInfo>)

  /** What `json.loads` produced: an object, or any other JSON value (an array
      from the bracket fallback, a string, a number), which has no `.get`. */
  datatype RawDoc = ObjectDoc(plan: RawPlan) | NonObjectDoc

  const CostKeySet: set<string> := {"activity", "accommodation", "transportation"}

  /** A cost map after `setdefault(key, 0)` for each of the three keys. */
  function WithDefaults(m: map<string, int>): (r: map<string, int>)
    ensures r.Keys == m.Keys + CostKeySet
    ensures forall k :: k in m ==> r[k] == m[k]
    ensures forall k :: k in r && k !in m ==> r[k] == 0
  {
    map k | k in m.Keys + CostKeySet :: if k in m then m[k] else 0
  }

  /** The inner `for key in [...]: est.setdefault(key, 0)` loop. */
  method SetDefaults(est: map<string, int>) returns (r: map<string, int>)
    ensures r == WithDefaults(est)
  {
    r := est;
    for i := 0 to |CostKeys|
      invariant r.Keys == est.Keys + set k | k in CostKeys[..i]
      invariant forall k :: k in est ==> r[k] == est[k]
      invariant forall k :: k in r && k !in est ==> r[k] == 0
    {
      assert CostKeys[..i + 1] == CostKeys[..i] + [CostKeys[i]];
      if CostKeys[i] !in r {
        r := r[CostKeys[i] := 0];
      }
    }
    assert CostKeys[..|CostKeys|] == CostKeys;
    assert (set k | k in CostKeys) == CostKeySet;
  }

  /** What the repair does to one `est_cost` that it does not reject. */
  function NormalizeCost(c: RawCost): (r: RawCost)
    ensures c.IntCost? ==>
              r.MapCost? && r.m.Keys == CostKeySet
              && r.m["activity"] == c.n && r.m["accommodation"] == 0 && r.m["transportation"] == 0
    ensures c.MapCost? ==>
              r.MapCost? && r.m.Keys == c.m.Keys + CostKeySet
              && (forall k :: k in c.m ==> r.m[k] == c.m[k])
              && (forall k :: k in r.m && k !in c.m ==> r.m[k] == 0)
    ensures c.NoCost? || Unrepairable(c) ==> r == c
  {
    match c
    case IntCost(n) => MapCost(map["activity" := n, "accommodation" := 0, "transportation" := 0])
    case MapCost(m) => MapCost(WithDefaults(m))
    case NoCost => NoCost
    case NullCost => NullCost
    case OtherCost => OtherCost
  }

  function RepairItem(it: RawItem): RawItem
  {
    it.(estCost := NormalizeCost(it.estCost))
  }

  function RepairDay(d: RawDay): RawDay
  {
    match d.items
    case None => d
    case Some(xs) => d.(items := Some(seq(|xs|, k requires 0 <= k < |xs| => RepairItem(xs[k]))))
  }

  /** `d'` is `d` with every item's cost normalised and nothing else changed. */
  ghost predicate DayRepairedFrom(d: RawDay, d': RawDay)
  {
    && d'.day == d.day && d'.date == d.date
    && (d'.items.Some? <==> d.items.Some?)
    && (d.items.Some? ==>
         && |d'.items.value| == |d.items.value|
         && forall i :: 0 <= i < |d.items.value| ==>
              var it, it' := d.items.value[i], d'.items.value[i];
              && it'.time == it.time && it'.name == it.name && it'.kind == it.kind
              && it'.description == it.description
              && it'.estCost == NormalizeCost(it.estCost))
  }

  /** The document the repair loop leaves behind when it does not raise. */
  function Repaired(doc: RawPlan): (r: RawPlan)
    ensures r.tips == doc.tips && r.estimate == doc.estimate && r.extraInfo == doc.extraInfo
    ensures r.itinerary.Some? <==> doc.itinerary.Some?
    ensures doc.itinerary.Some? ==>
      |r.itinerary.value| == |doc.itinerary.value|
      && forall k :: 0 <= k < |doc.itinerary.value| ==> DayRepairedFrom(doc.itinerary.value[k], r.itinerary.value[k])
  {
    match doc.itinerary
    case None => doc
    case Some(days) =>
      doc.(itinerary := Some(seq(|days|, k requires 0 <= k < |days| => RepairDay(days[k]))))
  }

  ghost predicate DayHasBadCost(d: RawDay)
  {
    d.items.Some? && exists i :: 0 <= i < |d.items.value| && Unrepairable(d.items.value[i].estCost)
  }

  /** Some item the loop visits has an `est_cost` without `setdefault`. */
  ghost predicate HasBadCost(doc: RawPlan)
  {
    doc.itinerary.Some? && exists k :: 0 <= k < |doc.itinerary.value| && DayHasBadCost(doc.itinerary.value[k])
  }

  /** The repair loop: raises AttributeError on the first cost it cannot
      repair, and otherwise leaves the repaired document. */
  method RepairCosts(doc: RawPlan) returns (r: Result<RawPlan>)
    ensures HasBadCost(doc) ==> r == Err(AttributeError)
    ensures !HasBadCost(doc) ==> r == Ok(Repaired(doc))
  {
    if doc.itinerary.None? {
      return Ok(doc);
    }
    var original := doc.itinerary.value;
    var days := original;
    var d := 0;
    while d < |days|
      invariant 0 <= d <= |days| == |original|
      invariant forall k :: 0 <= k < d ==> days[k] == RepairDay(original[k]) && !DayHasBadCost(original[k])
      invariant forall k :: d <= k < |days| ==> days[k] == original[k]
    {
      var day := days[d];
      if day.items.Some? {
        var before := day.items.value;
        var items := before;
        var i := 0;
        while i < |items|
          invariant 0 <= i <= |items| == |before|
          invariant forall k :: 0 <= k < i ==> items[k] == RepairItem(before[k]) && !Unrepairable(before[k].estCost)
          invariant forall k :: i <= k < |items| ==> items[k] == before[k]
        {
          var item := items[i];
          match item.estCost {
            case IntCost(n) =>
              items := items[i := item.(estCost := MapCost(map["activity" := n, "accommodation" := 0, "transportation" := 0]))];
            case MapCost(m) =>
              var filled := SetDefaults(m);
              items := items[i := item.(estCost := MapCost(filled))];
            case NoCost =>
              // `get` returned a fresh `{}` that is filled and then dropped
            case NullCost =>
              assert DayHasBadCost(original[d]);
              return Err(AttributeError);
            case OtherCost =>
              assert DayHasBadCost(original[d]);
              return Err(AttributeError);
          }
          i := i + 1;
        }
        assert items == seq(|before|, k requires 0 <= k < |before| => RepairItem(before[k]));
        days := days[d := day.(items := Some(items))];
        assert !DayHasBadCost(original[d]);
      }
      d := d + 1;
    }
    assert days == Repaired(doc).itinerary.value;
    return Ok(doc.(itinerary := Some(days)));
  }

  /** A second repair changes nothing. */
  lemma RepairedIdempotent(doc: RawPlan)
    ensures Repaired(Repaired(doc)) == Repaired(doc)
  {
    forall c: RawCost ensures NormalizeCost(NormalizeCost(c)) == NormalizeCost(c) {
      match c
      case IntCost(n) =>
        assert WithDefaults(NormalizeCost(c).m) == NormalizeCost(c).m;
      case MapCost(m) =>
        assert WithDefaults(WithDefaults(m)) == WithDefaults(m);
      case _ =>
    }
    if doc.itinerary.Some? {
      var once := Repaired(doc).itinerary.value;
      var twice := Repaired(Repaired(doc)).itinerary.value;
      forall k | 0 <= k < |once| ensures twice[k] == once[k] {
        if once[k].items.Some? {
          assert twice[k].items.value == once[k].items.value;
        }
      }
      assert twice == once;
    }
  }

  /** The `est_cost` values `Optional[Dict[str, int]]` accepts: absent, an
      object, or null. */
  predicate AcceptedCost(c: RawCost)
  {
    c.NoCost? || c.MapCost? || c.NullCost?
  }

  predicate ConformingDay(d: RawDay)
  {
    d.items.Some? && forall i :: 0 <= i < |d.items.value| ==> AcceptedCost(d.items.value[i].estCost)
  }

  /** The document fits the PlanOutput schema, as far as this model tracks it. */
  ghost predicate Conforms(doc: RawPlan)
  {
    && doc.itinerary.Some? && doc.estimate.Some?
    && forall k :: 0 <= k < |doc.itinerary.value| ==> ConformingDay(doc.itinerary.value[k])
  }

  /** The keys and their presence are what the repair cannot fix. */
  ghost predicate StructurallyComplete(doc: RawPlan)
  {
    && doc.itinerary.Some? && doc.estimate.Some?
    && forall k :: 0 <= k < |doc.itinerary.value| ==> doc.itinerary.value[k].items.Some?
  }

  /** The typed item: an object cost is kept, null stays None, and an absent
      `est_cost` takes the schema's default factory. */
  function ValidItem(it: RawItem): Item
    requires AcceptedCost(it.estCost)
  {
    Item(it.time, it.name, it.kind, it.description,
         match it.estCost
         case MapCost(m) => Some(m)
         case NullCost => None
         case NoCost => Some(DefaultCost))
  }

  function ValidDay(d: RawDay): Day
    requires ConformingDay(d)
  {
    var xs := d.items.value;
    Day(d.day, d.date, seq(|xs|, i requires 0 <= i < |xs| => ValidItem(xs[i])))
  }

  /** `tips`: an absent key takes the default factory `list`, null stays None. */
  function ValidTips(t: RawTips): Option<seq<string>>
  {
    match t
    case NoTips => Some([])
    case NullTips => None
    case TipsList(xs) => Some(xs)
  }

  /** `it` is what validation makes of `raw`. */
  ghost predicate ItemValidatedFrom(raw: RawItem, it: Item)
  {
    && it.time == raw.time && it.name == raw.name && it.kind == raw.kind && it.description == raw.description
    && (raw.estCost.MapCost? ==> it.estCost == Some(raw.estCost.m))
    && (raw.estCost.NullCost? ==> it.estCost == None)
    && (raw.estCost.NoCost? ==> it.estCost == Some(DefaultCost))
  }

  /** `d` is what validation makes of `raw`: same number, date and items in order. */
  ghost predicate DayValidatedFrom(raw: RawDay, d: Day)
  {
    && raw.items.Some? && d.day == raw.day && d.date == raw.date && |d.items| == |raw.items.value|
    && forall i :: 0 <= i < |d.items| ==> ItemValidatedFrom(raw.items.value[i], d.items[i])
  }

  /** `PlanOutput.parse_obj(data)` restricted to the fields this model tracks:
      missing structure or a cost that is neither absent, an object nor null
      fails validation. */
  function Validate(doc: RawPlan): (r: Result<PlanOutput>)
    ensures r.Ok? <==> Conforms(doc)
    ensures r.Err? ==> r.error == ValidationError
    ensures r.Ok? ==>
              && (doc.tips.NoTips? ==> r.value.tips == Some([]))
              && (doc.tips.NullTips? ==> r.value.tips == None)
              && (doc.tips.TipsList? ==> r.value.tips == Some(doc.tips.list))
              && Some(r.value.estimate) == doc.estimate && r.value.extraInfo == doc.extraInfo
    ensures r.Ok? ==>
              && |r.value.itinerary| == |doc.itinerary.value|
              && forall k :: 0 <= k < |doc.itinerary.value| ==> DayValidatedFrom(doc.itinerary.value[k], r.value.itinerary[k])
  {
    if !(doc.itinerary.Some? && doc.estimate.Some?) then Err(ValidationError)
    else
      var days := doc.itinerary.value;
      if forall k :: 0 <= k < |days| ==> ConformingDay(days[k]) then
        Ok(PlanOutput(seq(|days|, k requires 0 <= k < |days| => ValidDay(days[k])),
                      ValidTips(doc.tips), doc.estimate.value, doc.extraInfo))
      else Err(ValidationError)
  }

  /** All three cost keys are present. */
  predicate FullCost(c: Option<map<string, int>>)
  {
    c.Some? && CostKeySet <= c.value.Keys
  }

  /** Once the repair has run without raising, validation fails only for
      missing structure (an absent `itinerary`, `estimate` or `items`), never
      for a cost, and every item of the validated plan has all three cost
      keys: an absent cost gets the all-zero default, an integer `n` becomes
      `(n, 0, 0)`, and an object keeps its values and gains the missing keys
      as 0. */
  lemma RepairThenValidate(doc: RawPlan)
    requires !HasBadCost(doc)
    ensures Validate(Repaired(doc)).Ok? <==> StructurallyComplete(doc)
    ensures Validate(Repaired(doc)).Ok? ==>
      var days := Validate(Repaired(doc)).value.itinerary;
      forall d, i :: 0 <= d < |days| && 0 <= i < |days[d].items| ==>
        && FullCost(days[d].items[i].estCost)
        && var c := doc.itinerary.value[d].items.value[i].estCost;
           && (c.NoCost? ==> days[d].items[i].estCost == Some(DefaultCost))
           && (c.IntCost? ==> days[d].items[i].estCost == Some(map["activity" := c.n, "accommodation" := 0, "transportation" := 0]))
           && (c.MapCost? ==> days[d].items[i].estCost == Some(WithDefaults(c.m)))
           && (c.MapCost? ==> forall k :: k in c.m ==> days[d].items[i].estCost.value[k] == c.m[k])
  {
    var rep := Repaired(doc);
    if StructurallyComplete(doc) {
      forall k | 0 <= k < |rep.itinerary.value| ensures ConformingDay(rep.itinerary.value[k]) {
        var orig := doc.itinerary.value[k];
        assert DayRepairedFrom(orig, rep.itinerary.value[k]);
        assert !DayHasBadCost(orig);
        forall i | 0 <= i < |orig.items.value|
          ensures AcceptedCost(rep.itinerary.value[k].items.value[i].estCost)
        {
          assert !Unrepairable(orig.items.value[i].estCost);
        }
      }
      var days := Validate(rep).value.itinerary;
      forall d, i | 0 <= d < |days| && 0 <= i < |days[d].items|
        ensures FullCost(days[d].items[i].estCost)
        ensures var c := doc.itinerary.value[d].items.value[i].estCost;
           && (c.NoCost? ==> days[d].items[i].estCost == Some(DefaultCost))
           && (c.IntCost? ==> days[d].items[i].estCost == Some(map["activity" := c.n, "accommodation" := 0, "transportation" := 0]))
           && (c.MapCost? ==> days[d].items[i].estCost == Some(WithDefaults(c.m)))
      {
        var orig := doc.itinerary.value[d];
        assert DayRepairedFrom(orig, rep.itinerary.value[d]);
        assert DayValidatedFrom(rep.itinerary.value[d], days[d]);
        assert ItemValidatedFrom(rep.itinerary.value[d].items.value[i], days[d].items[i]);
        assert DefaultCost.Keys == CostKeySet;
      }
    }
  }
}

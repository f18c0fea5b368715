/** The derived summary attached to every generated plan: the names that are
    new compared with a previous plan, and two name-keyed maps filled by
    walking the itinerary day by day and item by item, later entries
    overwriting earlier ones. */
module ExtraInfoBuilder {
  import opened Schema

  function TimeOf(it: Item): string
  {
    it.time
  }

  /** `item.est_cost.get("activity", 0)`, with a missing `est_cost` read as 0
      (the source dereferences it; see TicketsAsWritten). */
  function ActivityCost(it: Item): (c: int)
    ensures it.estCost.Some? && "activity" in it.estCost.value ==> c == it.estCost.value["activity"]
    ensures it.estCost.None? || "activity" !in it.estCost.value ==> c == 0
  {
    match it.estCost
    case None => 0
    case Some(m) => if "activity" in m then m["activity"] else 0
  }

  /** The map `m[item.name] = value(item)` leaves after visiting `xs` in order. */
  function IndexBy<V>(xs: seq<Item>, value: Item -> V): map<string, V>
  {
    if xs == [] then map[] else IndexBy(xs[..|xs| - 1], value)[xs[|xs| - 1].name := value(xs[|xs| - 1])]
  }

  /** `xs[k]` is the last item in `xs` carrying its name. */
  ghost predicate LastOccurrence(xs: seq<Item>, k: int)
  {
    0 <= k < |xs| && forall k' :: k < k' < |xs| ==> xs[k'].name != xs[k].name
  }

  /** The index has exactly one key per distinct item name, and each key maps
      to the value of the last item with that name. */
  lemma {:induction false} IndexByLastWins<V>(xs: seq<Item>, value: Item -> V)
    ensures IndexBy(xs, value).Keys == ItemNames(xs)
    ensures forall k :: LastOccurrence(xs, k) ==> IndexBy(xs, value)[xs[k].name] == value(xs[k])
  {
    if xs != [] {
      var init, last := xs[..|xs| - 1], xs[|xs| - 1];
      IndexByLastWins(init, value);
      assert xs == init + [last];
      assert ItemNames(xs) == ItemNames(init) + {last.name};
      forall k | LastOccurrence(xs, k)
        ensures IndexBy(xs, value)[xs[k].name] == value(xs[k])
      {
        if k < |init| {
          assert xs[k] == init[k];
          assert LastOccurrence(init, k);
        }
      }
    }
  }

  /** Every name has a last occurrence, so every key's value comes from one. */
  lemma EveryNameHasLastOccurrence(xs: seq<Item>, n: string)
    requires n in ItemNames(xs)
    ensures exists k :: LastOccurrence(xs, k) && xs[k].name == n
  {
    var k :| 0 <= k < |xs| && xs[k].name == n;
    while exists k' :: k < k' < |xs| && xs[k'].name == n
      invariant 0 <= k < |xs| && xs[k].name == n
      decreases |xs| - k
    {
      var next :| k < next < |xs| && xs[next].name == n;
      k := next;
    }
    assert LastOccurrence(xs, k);
  }

  /** Flattening one more day appends its items. */
  lemma FlattenSnoc(days: seq<Day>, d: int)
    requires 0 <= d < |days|
    ensures Flatten(days[..d + 1]) == Flatten(days[..d]) + days[d].items
  {
    assert days[..d + 1][..d] == days[..d];
  }

  /** The nested `for day ... for item ...: m[item.name] = value(item)` loop. */
  method IndexItinerary<V>(days: seq<Day>, value: Item -> V) returns (m: map<string, V>)
    ensures m == IndexBy(Flatten(days), value)
  {
    m := map[];
    var d := 0;
    while d < |days|
      invariant 0 <= d <= |days|
      invariant m == IndexBy(Flatten(days[..d]), value)
    {
      var items := days[d].items;
      var i := 0;
      assert Flatten(days[..d]) + items[..0] == Flatten(days[..d]);
      while i < |items|
        invariant 0 <= i <= |items|
        invariant m == IndexBy(Flatten(days[..d]) + items[..i], value)
      {
        assert (Flatten(days[..d]) + items[..i + 1])[..|Flatten(days[..d]) + items[..i]|]
          == Flatten(days[..d]) + items[..i];
        m := m[items[i].name := value(items[i])];
        i := i + 1;
      }
      assert items[..i] == items;
      FlattenSnoc(days, d);
      d := d + 1;
    }
    assert days[..d] == days;
  }

  /** `list(s)`: every element once, in some order. */
  method ListOfSet(s: set<string>) returns (xs: seq<string>)
    ensures (set x | x in xs) == s
    ensures forall i, j :: 0 <= i < j < |xs| ==> xs[i] != xs[j]
  {
    xs := [];
    var rest := s;
    while rest != {}
      invariant rest <= s
      invariant (set x | x in xs) == s - rest
      invariant forall i, j :: 0 <= i < j < |xs| ==> xs[i] != xs[j]
      decreases rest
    {
      var x :| x in rest;
      assert (set y | y in xs + [x]) == (set y | y in xs) + {x};
      xs := xs + [x];
      rest := rest - {x};
    }
  }

  /** `changes` as the source leaves it: without a previous plan it keeps its
      empty default; with one it lists, once each, the names of the new plan
      that the previous plan does not have. */
  ghost predicate ChangesMatch(changes: seq<string>, itinerary: seq<Day>, currentPlan: Option<PlanOutput>)
  {
    match currentPlan
    case None => changes == []
    case Some(previous) =>
      && (set x | x in changes) == Names(itinerary) - Names(previous.itinerary)
      && forall i, j :: 0 <= i < j < |changes| ==> changes[i] != changes[j]
  }

  /** Builds the ExtraInfo of a freshly parsed plan. */
  method BuildExtraInfo(itinerary: seq<Day>, currentPlan: Option<PlanOutput>) returns (e: ExtraInfo)
    ensures ChangesMatch(e.changes, itinerary, currentPlan)
    ensures e.bestTimeToVisit == IndexBy(Flatten(itinerary), TimeOf)
    ensures e.tickets == IndexBy(Flatten(itinerary), ActivityCost)
  {
    var changes: seq<string> := [];
    if currentPlan.Some? {
      var oldPlaces := Names(currentPlan.value.itinerary);
      var newPlaces := Names(itinerary);
      changes := ListOfSet(newPlaces - oldPlaces);
    }
    var bestTimes := IndexItinerary(itinerary, TimeOf);
    var tickets := IndexItinerary(itinerary, ActivityCost);
    e := ExtraInfo(changes, bestTimes, tickets);
  }

  /** The two maps of the summary: one key per distinct item name of the
      plan, the time and the activity cost of the last item with that name. */
  lemma SummaryMapsLastWins(itinerary: seq<Day>)
    ensures IndexBy(Flatten(itinerary), TimeOf).Keys == Names(itinerary)
    ensures IndexBy(Flatten(itinerary), ActivityCost).Keys == Names(itinerary)
    ensures var xs := Flatten(itinerary);
      forall k :: LastOccurrence(xs, k) ==>
        && IndexBy(xs, TimeOf)[xs[k].name] == xs[k].time
        && IndexBy(xs, ActivityCost)[xs[k].name] == ActivityCost(xs[k])
  {
    IndexByLastWins(Flatten(itinerary), TimeOf);
    IndexByLastWins(Flatten(itinerary), ActivityCost);
  }

  /** With a previous plan holding {A, B} and a new plan holding {B, C}, the
      changes hold exactly C. */
  lemma ChangesExample(a: Item, b: Item, c: Item, b': Item, changes: seq<string>)
    requires a.name == "A" && b.name == "B" && b'.name == "B" && c.name == "C"
    requires ChangesMatch(changes, [Day(1, None, [b', c])],
                          Some(PlanOutput([Day(1, None, [a, b])], None, Estimate(0, 0, 0, None), None)))
    ensures (set x | x in changes) == {"C"}
  {
    assert Flatten([Day(1, None, [b', c])]) == [b', c];
    assert Flatten([Day(1, None, [a, b])]) == [a, b];
    assert Names([Day(1, None, [b', c])]) == {"B", "C"};
    assert Names([Day(1, None, [a, b])]) == {"A", "B"};
  }

  /** The tickets loop as written: `item.est_cost.get(...)` raises
      AttributeError when a schema-valid item has `est_cost` set to None. */
  function TicketsAsWritten(xs: seq<Item>): Result<map<string, int>>
  {
    if xs == [] then Ok(map[])
    else match TicketsAsWritten(xs[..|xs| - 1])
      case Err(e) => Err(e)
      case Ok(m) =>
        var last := xs[|xs| - 1];
        if last.estCost.None? then Err(AttributeError)
        else Ok(m[last.name := ActivityCost(last)])
  }

  /** Whenever the written loop succeeds it agrees with the corrected map, and
      it fails exactly when some item has no `est_cost` at all. */
  lemma {:induction false} TicketsAsWrittenAgrees(xs: seq<Item>)
    ensures TicketsAsWritten(xs).Err? <==> exists k :: 0 <= k < |xs| && xs[k].estCost.None?
    ensures TicketsAsWritten(xs).Ok? ==> TicketsAsWritten(xs).value == IndexBy(xs, ActivityCost)
  {
    if xs != [] {
      var init := xs[..|xs| - 1];
      TicketsAsWrittenAgrees(init);
      if exists k :: 0 <= k < |init| && init[k].estCost.None? {
        var k :| 0 <= k < |init| && init[k].estCost.None?;
        assert xs[k] == init[k];
      }
      if k :| 0 <= k < |xs| && xs[k].estCost.None? {
        if k < |init| {
          assert init[k] == xs[k];
        }
      }
    }
  }

  /** A plan that passed strict validation with `"est_cost": null` on one item
      makes the written loop raise, while the corrected rule records 0. */
  lemma NullCostBreaksTickets()
    ensures TicketsAsWritten([Item("09:00", "Museum", "activity", None, None)]).Err?
    ensures IndexBy([Item("09:00", "Museum", "activity", None, None)], ActivityCost) == map["Museum" := 0]
  {
    var xs := [Item("09:00", "Museum", "activity", None, None)];
    assert xs[..0] == [];
  }
}

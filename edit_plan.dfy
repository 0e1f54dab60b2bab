/**
 * Loading a saved report for editing (`edit_plan`): the record parsed back from
 * the report page is completed so that the form always has twelve monthly
 * evolution slots and every top-level group. A missing page, or one whose data
 * block is absent or unreadable, is the empty record `map[]`.
 */
module EditPlan {
  import opened Wrappers
  import opened Text
  import opened JsonValue

  /** The outcome of the load: the completed record, or an exception escaping the handler. */
  datatype LoadResult = Loaded(record: Record) | Malformed

  /** A value Python can use as a dict key: lists and dicts are unhashable. */
  predicate Hashable(j: Json) {
    !j.JArray? && !j.JObject?
  }

  /**
   * The integer a stored month is equal to as a dict key: integers themselves,
   * and booleans as 0 and 1 (Python's `True == 1`). Other values match no month.
   */
  function MonthKey(j: Json): Option<int> {
    match j
    case JNum(n) => Some(n)
    case JBool(b) => Some(if b then 1 else 0)
    case _ => None
  }

  /** The month an evolution entry is filed under, if any. */
  function MonthOf(entry: Json): Option<int> {
    if entry.JObject? && "month" in entry.fields then MonthKey(entry.fields["month"]) else None
  }

  /** `item['month']` succeeds and its value can be a dict key. */
  predicate WellFormedItem(item: Json) {
    item.JObject? && "month" in item.fields && Hashable(item.fields["month"])
  }

  /**
   * What iterating `patient_data.get('evolution', [])` yields, or `None` where the
   * loop raises: non-iterables, and non-empty strings or dicts, whose elements
   * cannot be indexed by `'month'`.
   */
  function EvolutionItems(record: Record): (r: Option<seq<Json>>)
    ensures "evolution" !in record ==> r == Some([])
    ensures "evolution" in record && record["evolution"].JArray? ==> r == Some(record["evolution"].items)
  {
    if "evolution" !in record then Some([])
    else
      match record["evolution"]
      case JArray(items) => Some(items)
      case JStr(s) => if s == "" then Some([]) else None
      case JObject(fields) => if |fields| == 0 then Some([]) else None
      case _ => None
  }

  /**
   * `{item['month']: item for item in items}` restricted to integer keys: each
   * month maps to an item filed under it (the last one, by `ByMonthPicksLast`).
   * `None` when some item cannot be filed.
   */
  function ByMonth(items: seq<Json>): (r: Option<map<int, Json>>)
    ensures r.Some? <==> forall i :: 0 <= i < |items| ==> WellFormedItem(items[i])
    ensures r.Some? ==> forall k :: k in r.value ==> MonthOf(r.value[k]) == Some(k)
    ensures r.Some? ==> forall k :: k in r.value <==> exists i :: 0 <= i < |items| && MonthOf(items[i]) == Some(k)
  {
    if items == [] then Some(map[])
    else
      var init := items[..|items| - 1];
      var last := items[|items| - 1];
      assert forall i :: 0 <= i < |init| ==> init[i] == items[i];
      match ByMonth(init)
      case None => None
      case Some(m) =>
        if !WellFormedItem(last) then None
        else
          match MonthKey(last.fields["month"])
          case Some(k) => Some(m[k := last])
          case None => Some(m)
  }

  /** Of several items filed under one month, the last one is kept. */
  lemma {:induction false} ByMonthPicksLast(items: seq<Json>, i: nat)
    requires ByMonth(items).Some?
    requires i < |items| && MonthOf(items[i]).Some?
    requires forall j :: i < j < |items| ==> MonthOf(items[j]) != MonthOf(items[i])
    ensures ByMonth(items).value[MonthOf(items[i]).value] == items[i]
  {
    var init := items[..|items| - 1];
    assert forall j :: 0 <= j < |init| ==> init[j] == items[j];
    if i < |items| - 1 {
      ByMonthPicksLast(init, i);
    }
  }

  /** The blank entry the form shows for a month with no stored data. */
  function Placeholder(month: int): (entry: Json)
    ensures WellFormedItem(entry) && MonthOf(entry) == Some(month)
  {
    JObject(map["month" := JNum(month), "fat" := JStr(""), "muscle" := JStr(""),
                "water" := JStr(""), "metabolism" := JStr("")])
  }

  /** The slot for one month: the stored entry if there is one, otherwise a blank entry. */
  function Slot(byMonth: map<int, Json>, month: int): Json {
    if month in byMonth then byMonth[month] else Placeholder(month)
  }

  /** The twelve slots, January first. */
  function Slots(byMonth: map<int, Json>): (r: seq<Json>)
    ensures |r| == 12 && forall k :: 0 <= k < 12 ==> r[k] == Slot(byMonth, k + 1)
  {
    seq(12, k requires 0 <= k < 12 => Slot(byMonth, k + 1))
  }

  /** The blank goal of the defaults. */
  function BlankGoal(): Json {
    JObject(map["text" := JStr(""), "completed" := JBool(false)])
  }

  /** The top-level defaults; `today` is the consultation date `datetime.now()` would give. */
  function Defaults(username: string, today: string): Record {
    map["name" := JStr(DecodeSpaces(username)), "details" := JStr(""), "consultation_date" := JStr(today),
        "bioimpedance" := JObject(map[]), "habits" := JObject(map[]), "signals" := JArray([]),
        "plan" := JObject(map[]), "results" := JObject(map[]),
        "goals" := JArray([BlankGoal(), BlankGoal(), BlankGoal()])]
  }

  /** `record.setdefault(key, value)` for every default: present keys win. */
  function WithDefaults(record: Record, defaults: Record): (r: Record)
    ensures r.Keys == record.Keys + defaults.Keys
    ensures forall k :: k in record ==> r[k] == record[k]
    ensures forall k :: k in defaults && k !in record ==> r[k] == defaults[k]
  {
    map k | k in record.Keys + defaults.Keys :: if k in record then record[k] else defaults[k]
  }

  /** Defaults change nothing in a record that already has every default key. */
  lemma WithDefaultsPresent(record: Record, defaults: Record)
    requires defaults.Keys <= record.Keys
    ensures WithDefaults(record, defaults) == record
  {
    assert WithDefaults(record, defaults).Keys == record.Keys;
  }

  /** What `edit_plan` hands to the form for the record it loaded. */
  function Normalise(loaded: Record, username: string, today: string): LoadResult {
    match EvolutionItems(loaded)
    case None => Malformed
    case Some(items) =>
      match ByMonth(items)
      case None => Malformed
      case Some(byMonth) =>
        Loaded(WithDefaults(loaded["evolution" := JArray(Slots(byMonth))], Defaults(username, today)))
  }

  /** The loop over months 1 to 12 that builds `complete_evolution_list`. */
  method CompleteEvolution(byMonth: map<int, Json>) returns (list: seq<Json>)
    ensures list == Slots(byMonth)
  {
    list := [];
    for month := 1 to 13
      invariant |list| == month - 1
      invariant forall k :: 0 <= k < |list| ==> list[k] == Slot(byMonth, k + 1)
    {
      if month in byMonth {
        list := list + [byMonth[month]];
      } else {
        list := list + [Placeholder(month)];
      }
    }
  }

  /** The `setdefault` loop over the defaults. */
  method SetDefaults(record: Record, defaults: Record) returns (r: Record)
    ensures r == WithDefaults(record, defaults)
  {
    r := record;
    var pending := defaults.Keys;
    while pending != {}
      invariant pending <= defaults.Keys
      invariant forall k :: k in r <==> k in record || (k in defaults && k !in pending)
      invariant forall k :: k in record ==> r[k] == record[k]
      invariant forall k :: k in r && k !in record ==> r[k] == defaults[k]
      decreases pending
    {
      var key :| key in pending;
      if key !in r {
        r := r[key := defaults[key]];
      }
      pending := pending - {key};
    }
    assert r.Keys == WithDefaults(record, defaults).Keys;
  }

  /** `edit_plan` from the parsed record to the record given to the form. */
  method Edit(loaded: Record, username: string, today: string) returns (result: LoadResult)
    ensures result == Normalise(loaded, username, today)
  {
    var items := EvolutionItems(loaded);
    if items.None? {
      return Malformed;
    }
    var byMonth := ByMonth(items.value);
    if byMonth.None? {
      return Malformed;
    }
    var list := CompleteEvolution(byMonth.value);
    var record := loaded["evolution" := JArray(list)];
    record := SetDefaults(record, Defaults(username, today));
    return Loaded(record);
  }

  // ---------------------------------------------------------------------------
  // What the normalised record looks like

  /** Twelve slots, the one at index k filed under month k + 1. */
  lemma NormalisedEvolution(loaded: Record, username: string, today: string)
    requires Normalise(loaded, username, today).Loaded?
    ensures var r := Normalise(loaded, username, today).record;
      && "evolution" in r && r["evolution"].JArray? && |r["evolution"].items| == 12
      && forall k :: 0 <= k < 12 ==> MonthOf(r["evolution"].items[k]) == Some(k + 1)
  {
    var items := EvolutionItems(loaded).value;
    var byMonth := ByMonth(items).value;
    var slots := Slots(byMonth);
    forall k | 0 <= k < 12 ensures MonthOf(slots[k]) == Some(k + 1) {
      if k + 1 !in byMonth {
        assert slots[k] == Placeholder(k + 1);
      }
    }
  }

  /** A stored entry is kept verbatim in its month's slot; the last one wins. */
  lemma NormaliseKeepsStored(loaded: Record, username: string, today: string, i: nat)
    requires Normalise(loaded, username, today).Loaded?
    requires var items := EvolutionItems(loaded).value;
      && i < |items| && MonthOf(items[i]).Some? && 1 <= MonthOf(items[i]).value <= 12
      && forall j :: i < j < |items| ==> MonthOf(items[j]) != MonthOf(items[i])
    ensures var r := Normalise(loaded, username, today).record;
      var items := EvolutionItems(loaded).value;
      r["evolution"].items[MonthOf(items[i]).value - 1] == items[i]
  {
    var items := EvolutionItems(loaded).value;
    var byMonth := ByMonth(items).value;
    ByMonthPicksLast(items, i);
  }

  /** A month with no stored entry gets a blank entry. */
  lemma NormaliseBlanksMissing(loaded: Record, username: string, today: string, month: int)
    requires Normalise(loaded, username, today).Loaded?
    requires 1 <= month <= 12
    requires var items := EvolutionItems(loaded).value;
      forall i :: 0 <= i < |items| ==> MonthOf(items[i]) != Some(month)
    ensures Normalise(loaded, username, today).record["evolution"].items[month - 1] == Placeholder(month)
  {
    var items := EvolutionItems(loaded).value;
    assert month !in ByMonth(items).value;
  }

  /** Keys already present are kept (except `evolution`); missing ones get the defaults. */
  lemma NormaliseDefaults(loaded: Record, username: string, today: string)
    requires Normalise(loaded, username, today).Loaded?
    ensures var r := Normalise(loaded, username, today).record;
      && r.Keys == loaded.Keys + Defaults(username, today).Keys + {"evolution"}
      && (forall k :: k in loaded && k != "evolution" ==> r[k] == loaded[k])
      && (forall k :: k in Defaults(username, today) && k !in loaded ==> r[k] == Defaults(username, today)[k])
  {
  }

  /** The default name is the username with every `%20` decoded; none is left. */
  lemma DefaultName(loaded: Record, username: string, today: string)
    requires Normalise(loaded, username, today).Loaded?
    requires "name" !in loaded
    ensures var r := Normalise(loaded, username, today).record;
      && r["name"] == JStr(DecodeSpaces(username))
      && forall i :: !EncodedSpaceAt(r["name"].s, i)
  {
    DecodeSpacesComplete(username);
  }

  /** Only the evolution value can make the load fail, and a record without one always loads. */
  lemma NormaliseFailure(loaded: Record, username: string, today: string)
    ensures Normalise(loaded, username, today).Malformed? <==>
      || EvolutionItems(loaded).None?
      || exists i :: 0 <= i < |EvolutionItems(loaded).value| && !WellFormedItem(EvolutionItems(loaded).value[i])
    ensures "evolution" !in loaded ==> Normalise(loaded, username, today).Loaded?
  {
  }

  /** With no saved page the form gets twelve blank months and all the defaults. */
  lemma NormaliseEmpty(username: string, today: string)
    ensures Normalise(map[], username, today) ==
      Loaded(Defaults(username, today)["evolution" := JArray(seq(12, k requires 0 <= k < 12 => Placeholder(k + 1)))])
  {
    var r := Normalise(map[], username, today).record;
    var expected := Defaults(username, today)["evolution" := JArray(seq(12, k requires 0 <= k < 12 => Placeholder(k + 1)))];
    assert Slots(map[]) == seq(12, k requires 0 <= k < 12 => Placeholder(k + 1));
    assert r.Keys == expected.Keys;
  }
}

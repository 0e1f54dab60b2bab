/**
 * Saving a report and opening it again for editing. The page written by
 * `save_plan` embeds `json.dumps(data)`; `edit_plan` parses that block back and
 * normalises it. Serialising and parsing the block are taken to be inverse.
 */
module RoundTrip {
  import opened Wrappers
  import opened JsonValue
  import opened SavePlan
  import opened EditPlan

  /** The slot the edit form shows for a month after saving `form`. */
  function ExpectedSlot(form: Form, month: nat): Json {
    if AnyMetric(FormEntry(form, month)) then EntryJson(FormEntry(form, month)) else Placeholder(month)
  }

  /** The twelve slots the edit form shows after saving `form`. */
  function ExpectedSlots(form: Form): (slots: seq<Json>)
    ensures |slots| == 12
  {
    seq(12, k requires 0 <= k < 12 => ExpectedSlot(form, k + 1))
  }

  /** The embedded entries can all be filed, each under its own month. */
  lemma SavedItems(evolution: seq<Entry>)
    ensures |EvolutionJson(evolution)| == |evolution|
    ensures forall i :: 0 <= i < |evolution| ==>
      WellFormedItem(EvolutionJson(evolution)[i]) && MonthOf(EvolutionJson(evolution)[i]) == Some(evolution[i].month)
    ensures ByMonth(EvolutionJson(evolution)).Some?
  {
    var items := EvolutionJson(evolution);
    forall i | 0 <= i < |evolution|
      ensures WellFormedItem(items[i]) && MonthOf(items[i]) == Some(evolution[i].month)
    {
      assert items[i] == EntryJson(evolution[i]);
    }
  }

  /** Filing a saved evolution list by month gives, for each month, the slot the form expects. */
  lemma SavedSlot(form: Form, evolution: seq<Entry>, month: nat)
    requires IsSavedEvolution(form, evolution)
    requires 1 <= month <= 12
    ensures ByMonth(EvolutionJson(evolution)).Some?
    ensures Slot(ByMonth(EvolutionJson(evolution)).value, month) == ExpectedSlot(form, month)
  {
    var items := EvolutionJson(evolution);
    SavedItems(evolution);
    var byMonth := ByMonth(items).value;
    if AnyMetric(FormEntry(form, month)) {
      var i :| 0 <= i < |evolution| && evolution[i].month == month;
      assert evolution[i] == FormEntry(form, month);
      assert forall j :: i < j < |items| ==> MonthOf(items[j]) != MonthOf(items[i]);
      ByMonthPicksLast(items, i);
      assert items[i] == EntryJson(evolution[i]);
    } else {
      assert forall i :: 0 <= i < |items| ==> MonthOf(items[i]) != Some(month);
      assert month !in byMonth;
    }
  }

  /** Filing a saved evolution list by month gives the slots the form expects. */
  lemma SavedSlots(form: Form, evolution: seq<Entry>)
    requires IsSavedEvolution(form, evolution)
    ensures ByMonth(EvolutionJson(evolution)).Some?
    ensures Slots(ByMonth(EvolutionJson(evolution)).value) == ExpectedSlots(form)
  {
    SavedItems(evolution);
    var slots := Slots(ByMonth(EvolutionJson(evolution)).value);
    var expected := ExpectedSlots(form);
    forall k | 0 <= k < 12 ensures slots[k] == expected[k] {
      SavedSlot(form, evolution, k + 1);
    }
  }

  /**
   * Editing a saved record loads without error, keeps every saved field, and
   * shows twelve months: each saved entry in its month's slot, unchanged, and a
   * blank entry for every month the form left empty.
   */
  lemma SaveThenEdit(form: Form, data: PatientData, username: string, today: string)
    requires IsSavedEvolution(form, data.evolution)
    ensures var result := Normalise(ToJson(data), username, today);
      && result.Loaded?
      && result.record == ToJson(data)["evolution" := JArray(ExpectedSlots(form))]
  {
    var json := ToJson(data);
    assert json["evolution"] == JArray(EvolutionJson(data.evolution));
    SavedSlots(form, data.evolution);
    var loaded := json["evolution" := JArray(ExpectedSlots(form))];
    assert Defaults(username, today).Keys <= loaded.Keys;
    WithDefaultsPresent(loaded, Defaults(username, today));
  }
}

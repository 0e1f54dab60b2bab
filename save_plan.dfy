/**
 * Saving a report (`save_plan` and `get_goal_icon`): the submitted form is
 * turned into the patient record, and the record into the HTML fragments that
 * the report template receives. The template text itself is not modelled; the
 * record is embedded in the page as JSON (`ToJson`) for the next edit.
 */
module SavePlan {
  import opened Wrappers
  import opened Text
  import opened JsonValue

  // ---------------------------------------------------------------------------
  // The form

  /** The submitted form fields. */
  type Form = map<string, string>

  /** `request.form.get(key)`. */
  function Get(form: Form, key: string): Option<string> {
    if key in form then Some(form[key]) else None
  }

  /** `request.form.get(key, default)`. */
  function GetOr(form: Form, key: string, default: string): string {
    if key in form then form[key] else default
  }

  /** A numbered field name such as `evo_fat_3` (Python's `f"{prefix}{n}"`). */
  function FieldName(prefix: string, n: nat): string {
    prefix + NatToString(n)
  }

  /** A multi-line field as a list: `.strip().split('\n')` of its value, `""` when absent. */
  function Lines(form: Form, key: string): (lines: seq<string>)
    ensures |lines| >= 1 && forall i :: 0 <= i < |lines| ==> '\n' !in lines[i]
    ensures Join(lines, '\n') == Strip(GetOr(form, key, ""))
  {
    Split(Strip(GetOr(form, key, "")), '\n')
  }

  // ---------------------------------------------------------------------------
  // The record

  datatype Bioimpedance = Bioimpedance(
    fatPercentage: Option<string>, muscleMass: Option<string>, waterPercentage: Option<string>,
    basalMetabolism: Option<string>, url: Option<string>)

  datatype Habits = Habits(
    foodPlanText: Option<string>, errors: Option<string>, improvements: Option<string>, url: Option<string>)

  datatype Plan = Plan(
    substitutionsExample: Option<string>, supplements: seq<string>,
    shoppingPrioritize: Option<string>, shoppingAvoid: Option<string>)

  datatype Goal = Goal(text: Option<string>, completed: bool)

  /** One month of the evolution chart; the metrics are the raw form values. */
  datatype Entry = Entry(
    month: int, fat: Option<string>, muscle: Option<string>, water: Option<string>, metabolism: Option<string>)

  datatype PatientData = PatientData(
    name: Option<string>, details: Option<string>, consultationDate: Option<string>,
    bioimpedance: Bioimpedance, habits: Habits, signals: seq<string>, plan: Plan,
    predictionText: Option<string>, goals: seq<Goal>, evolution: seq<Entry>)

  /** The four metric fields the form holds for one month. */
  function FormEntry(form: Form, month: nat): Entry {
    Entry(month,
          Get(form, FieldName("evo_fat_", month)), Get(form, FieldName("evo_muscle_", month)),
          Get(form, FieldName("evo_water_", month)), Get(form, FieldName("evo_metabolism_", month)))
  }

  /** Some metric of the entry is filled in. */
  predicate AnyMetric(e: Entry) {
    Truthy(e.fat) || Truthy(e.muscle) || Truthy(e.water) || Truthy(e.metabolism)
  }

  /**
   * The evolution list `save_plan` stores for a form: at most twelve entries,
   * months strictly increasing within 1..12, each entry the form's values for
   * its month, and a month present exactly when one of its metrics is filled in.
   */
  predicate IsSavedEvolution(form: Form, evolution: seq<Entry>) {
    && |evolution| <= 12
    && (forall k :: 0 <= k < |evolution| ==>
          1 <= evolution[k].month <= 12 && evolution[k] == FormEntry(form, evolution[k].month))
    && (forall j, k :: 0 <= j < k < |evolution| ==> evolution[j].month < evolution[k].month)
    && (forall m :: 1 <= m <= 12 ==>
          (AnyMetric(FormEntry(form, m)) <==> exists k :: 0 <= k < |evolution| && evolution[k].month == m))
  }

  /** The loop over months 1 to 12 that appends the filled-in months. */
  method BuildEvolution(form: Form) returns (evolution: seq<Entry>)
    ensures IsSavedEvolution(form, evolution)
  {
    evolution := [];
    for i := 1 to 13
      invariant |evolution| <= i - 1
      invariant forall k :: 0 <= k < |evolution| ==>
        1 <= evolution[k].month < i && evolution[k] == FormEntry(form, evolution[k].month)
      invariant forall j, k :: 0 <= j < k < |evolution| ==> evolution[j].month < evolution[k].month
      invariant forall m :: 1 <= m < i ==>
        (AnyMetric(FormEntry(form, m)) <==> exists k :: 0 <= k < |evolution| && evolution[k].month == m)
    {
      var fat := Get(form, FieldName("evo_fat_", i));
      var muscle := Get(form, FieldName("evo_muscle_", i));
      var water := Get(form, FieldName("evo_water_", i));
      var metabolism := Get(form, FieldName("evo_metabolism_", i));
      assert Entry(i, fat, muscle, water, metabolism) == FormEntry(form, i);
      if Truthy(fat) || Truthy(muscle) || Truthy(water) || Truthy(metabolism) {
        ghost var before := evolution;
        evolution := evolution + [Entry(i, fat, muscle, water, metabolism)];
        assert forall k :: 0 <= k < |before| ==> evolution[k] == before[k];
        assert evolution[|before|].month == i;
      }
    }
  }

  /** The three goals: each text as submitted, completed exactly when its checkbox sent `on`. */
  function FormGoals(form: Form): (goals: seq<Goal>)
    ensures |goals| == 3
    ensures forall i :: 0 <= i < 3 ==>
      && goals[i].text == Get(form, FieldName("goal_text_", i))
      && (goals[i].completed <==> Get(form, FieldName("goal_completed_", i)) == Some("on"))
  {
    seq(3, i requires 0 <= i < 3 =>
      Goal(Get(form, FieldName("goal_text_", i)), Get(form, FieldName("goal_completed_", i)) == Some("on")))
  }

  /** The `data` dictionary `save_plan` builds, given the evolution list its loop produced. */
  function FormRecord(form: Form, evolution: seq<Entry>): PatientData {
    PatientData(
      name := Get(form, "name"), details := Get(form, "details"),
      consultationDate := Get(form, "consultation_date"),
      bioimpedance := Bioimpedance(
        Get(form, "fat_percentage"), Get(form, "muscle_mass"), Get(form, "water_percentage"),
        Get(form, "basal_metabolism"), Get(form, "bioimpedance_url")),
      habits := Habits(Get(form, "food_plan_text"), Get(form, "errors"), Get(form, "improvements"),
                       Get(form, "food_plan_url")),
      signals := Lines(form, "signals"),
      plan := Plan(Get(form, "substitutions_example"), Lines(form, "supplements"),
                   Get(form, "shopping_prioritize"), Get(form, "shopping_avoid")),
      predictionText := Get(form, "prediction_text"),
      goals := FormGoals(form),
      evolution := evolution)
  }

  // ---------------------------------------------------------------------------
  // The HTML fragments

  /** `"".join([item(x) for x in xs if keep(x)])`. */
  function Fragment<T>(xs: seq<T>, keep: T -> bool, item: T -> string): string {
    if xs == [] then "" else (if keep(xs[0]) then item(xs[0]) else "") + Fragment(xs[1..], keep, item)
  }

  /** A fragment lists its items in order: it distributes over concatenation. */
  lemma {:induction false} FragmentAppend<T>(a: seq<T>, b: seq<T>, keep: T -> bool, item: T -> string)
    ensures Fragment(a + b, keep, item) == Fragment(a, keep, item) + Fragment(b, keep, item)
  {
    if a == [] {
      assert a + b == b;
    } else {
      assert (a + b)[0] == a[0] && (a + b)[1..] == a[1..] + b;
      FragmentAppend(a[1..], b, keep, item);
    }
  }

  /** A one-element fragment is the item when it is kept, and nothing otherwise. */
  lemma FragmentSingle<T>(x: T, keep: T -> bool, item: T -> string)
    ensures Fragment([x], keep, item) == if keep(x) then item(x) else ""
  {
    assert [x][1..] == [];
  }

  /** With non-empty items, a fragment is empty exactly when no element is kept. */
  lemma {:induction false} FragmentEmpty<T>(xs: seq<T>, keep: T -> bool, item: T -> string)
    requires forall i :: 0 <= i < |xs| && keep(xs[i]) ==> item(xs[i]) != ""
    ensures Fragment(xs, keep, item) == "" <==> forall i :: 0 <= i < |xs| ==> !keep(xs[i])
  {
    if xs != [] {
      FragmentEmpty(xs[1..], keep, item);
      assert forall i :: 1 <= i < |xs| ==> xs[1..][i - 1] == xs[i];
    }
  }

  predicate NonBlank(s: string) {
    s != ""
  }

  /** A signal or supplement line as a list item. */
  function ListItem(s: string): string {
    "<li>" + s + "</li>"
  }

  const CheckIcon := "<svg class=\"h-5 w-5 mr-3\" xmlns=\"http://www.w3.org/2000/svg\" viewBox=\"0 0 20 20\" fill=\"currentColor\"><path fill-rule=\"evenodd\" d=\"M10 18a8 8 0 100-16 8 8 0 000 16zm3.707-9.293a1 1 0 00-1.414-1.414L9 10.586 7.707 9.293a1 1 0 00-1.414 1.414l2 2a1 1 0 001.414 0l4-4z\" clip-rule=\"evenodd\" /></svg>"
  const SpinnerIcon := "<svg class=\"animate-spin h-5 w-5 mr-3 text-blue-400\" xmlns=\"http://www.w3.org/2000/svg\" fill=\"none\" viewBox=\"0 0 24 24\"><circle class=\"opacity-25\" cx=\"12\" cy=\"12\" r=\"10\" stroke=\"currentColor\" stroke-width=\"4\"></circle><path class=\"opacity-75\" fill=\"currentColor\" d=\"M4 12a8 8 0 018-8V0C5.373 0 0 5.373 0 12h4zm2 5.291A7.962 7.962 0 014 12H0c0 3.042 1.135 5.824 3 7.938l3-2.647z\"></path></svg>"

  /** `get_goal_icon`: a check mark for a completed goal, a spinner otherwise. */
  function GoalIcon(completed: bool): (icon: string)
    ensures icon == CheckIcon <==> completed
    ensures icon == SpinnerIcon <==> !completed
  {
    if completed then CheckIcon else SpinnerIcon
  }

  /** A goal is listed when its text is filled in. */
  predicate HasText(g: Goal) {
    Truthy(g.text)
  }

  /** A goal as a list item, highlighted and with the icon its flag selects. */
  function GoalItem(g: Goal): string {
    var text := if g.text.Some? then g.text.value else "None";
    "<li class=\"flex items-center " + (if g.completed then "text-green-400" else "") + "\">"
      + GoalIcon(g.completed) + "<span>" + text + "</span></li>"
  }

  const BioButtonClass := "mt-auto inline-flex items-center justify-center gap-2 text-sm gradient-bg text-white font-semibold py-2 px-4 rounded-lg hover:opacity-90 transition-opacity"
  const PlanButtonClass := "mt-3 inline-flex items-center gap-2 text-sm gradient-bg text-white font-semibold py-2 px-4 rounded-lg hover:opacity-90 transition-opacity"

  /** A download link to `url`, or nothing when no URL was given. */
  function DownloadButton(url: Option<string>, cls: string, caption: string): (html: string)
    ensures html == "" <==> !Truthy(url)
    ensures Truthy(url) ==> |html| > 9 + |url.value| && html[..9] == "<a href=\"" && html[9..9 + |url.value|] == url.value
  {
    if Truthy(url) then
      "<a href=\"" + url.value + "\" target=\"_blank\" class=\"" + cls + "\">" + caption + "</a>"
    else ""
  }

  /** `name.split(' ')[0] if name else ""`: the text before the first space character. */
  function NameFirst(name: Option<string>): (first: string)
    ensures !Truthy(name) ==> first == ""
    ensures Truthy(name) ==>
      && |first| <= |name.value| && first == name.value[..|first|]
      && ' ' !in first
      && (|first| < |name.value| ==> name.value[|first|] == ' ')
  {
    if Truthy(name) then Split(name.value, ' ')[0] else ""
  }

  /** The derived values the report template receives besides the record's own fields. */
  datatype Page = Page(
    bioButton: string, planButton: string, goals: string, signals: string, supplements: string,
    nameFirst: string)

  function Render(data: PatientData): Page {
    Page(
      bioButton := DownloadButton(data.bioimpedance.url, BioButtonClass, "Baixar Análise Detalhada"),
      planButton := DownloadButton(data.habits.url, PlanButtonClass, "Baixar Plano Alimentar"),
      goals := Fragment(data.goals, HasText, GoalItem),
      signals := Fragment(data.signals, NonBlank, ListItem),
      supplements := Fragment(data.plan.supplements, NonBlank, ListItem),
      nameFirst := NameFirst(data.name))
  }

  /** `save_plan` up to the page write: the record and the fragments for the template. */
  method Save(form: Form) returns (data: PatientData, page: Page)
    ensures IsSavedEvolution(form, data.evolution)
    ensures data == FormRecord(form, data.evolution)
    ensures page == Render(data)
  {
    var evolution := BuildEvolution(form);
    data := FormRecord(form, evolution);
    page := Render(data);
  }

  // ---------------------------------------------------------------------------
  // The embedded JSON copy

  /** `None` is stored as `null`. */
  function OptJson(v: Option<string>): Json {
    match v
    case None => JNull
    case Some(s) => JStr(s)
  }

  function EntryJson(e: Entry): Json {
    JObject(map["month" := JNum(e.month), "fat" := OptJson(e.fat), "muscle" := OptJson(e.muscle),
                "water" := OptJson(e.water), "metabolism" := OptJson(e.metabolism)])
  }

  function GoalJson(g: Goal): Json {
    JObject(map["text" := OptJson(g.text), "completed" := JBool(g.completed)])
  }

  function StringsJson(xs: seq<string>): Json {
    JArray(seq(|xs|, i requires 0 <= i < |xs| => JStr(xs[i])))
  }

  function GoalsJson(goals: seq<Goal>): Json {
    JArray(seq(|goals|, i requires 0 <= i < |goals| => GoalJson(goals[i])))
  }

  /** The evolution list as it is embedded in the page. */
  function EvolutionJson(evolution: seq<Entry>): seq<Json> {
    seq(|evolution|, i requires 0 <= i < |evolution| => EntryJson(evolution[i]))
  }

  function BioimpedanceJson(b: Bioimpedance): Json {
    JObject(map["fat_percentage" := OptJson(b.fatPercentage), "muscle_mass" := OptJson(b.muscleMass),
                "water_percentage" := OptJson(b.waterPercentage), "basal_metabolism" := OptJson(b.basalMetabolism),
                "url" := OptJson(b.url)])
  }

  function HabitsJson(h: Habits): Json {
    JObject(map["food_plan_text" := OptJson(h.foodPlanText), "errors" := OptJson(h.errors),
                "improvements" := OptJson(h.improvements), "url" := OptJson(h.url)])
  }

  function PlanJson(p: Plan): Json {
    JObject(map["substitutions_example" := OptJson(p.substitutionsExample),
                "supplements" := StringsJson(p.supplements),
                "shopping_prioritize" := OptJson(p.shoppingPrioritize), "shopping_avoid" := OptJson(p.shoppingAvoid)])
  }

  /** The record as the dict `json.dumps` serialises into the page. */
  function ToJson(data: PatientData): Record {
    map["name" := OptJson(data.name),
        "details" := OptJson(data.details),
        "consultation_date" := OptJson(data.consultationDate),
        "bioimpedance" := BioimpedanceJson(data.bioimpedance),
        "habits" := HabitsJson(data.habits),
        "signals" := StringsJson(data.signals),
        "plan" := PlanJson(data.plan),
        "results" := JObject(map["prediction_text" := OptJson(data.predictionText)]),
        "goals" := GoalsJson(data.goals),
        "evolution" := JArray(EvolutionJson(data.evolution))]
  }

  lemma StringsJsonInjective(a: seq<string>, b: seq<string>)
    requires StringsJson(a) == StringsJson(b)
    ensures a == b
  {
    assert |a| == |StringsJson(a).items| == |b|;
    forall i | 0 <= i < |a| ensures a[i] == b[i] {
      assert StringsJson(a).items[i] == JStr(a[i]);
    }
  }

  lemma GoalsJsonInjective(a: seq<Goal>, b: seq<Goal>)
    requires GoalsJson(a) == GoalsJson(b)
    ensures a == b
  {
    assert |a| == |GoalsJson(a).items| == |b|;
    forall i | 0 <= i < |a| ensures a[i] == b[i] {
      var x, y := GoalJson(a[i]), GoalJson(b[i]);
      assert GoalsJson(a).items[i] == x && GoalsJson(b).items[i] == y;
      assert x.fields["text"] == y.fields["text"] && x.fields["completed"] == y.fields["completed"];
    }
  }

  lemma EvolutionJsonInjective(a: seq<Entry>, b: seq<Entry>)
    requires EvolutionJson(a) == EvolutionJson(b)
    ensures a == b
  {
    assert |a| == |EvolutionJson(a)| == |b|;
    forall i | 0 <= i < |a| ensures a[i] == b[i] {
      var x, y := EntryJson(a[i]), EntryJson(b[i]);
      assert EvolutionJson(a)[i] == x && EvolutionJson(b)[i] == y;
      assert x.fields["month"] == y.fields["month"];
      assert x.fields["fat"] == y.fields["fat"] && x.fields["muscle"] == y.fields["muscle"];
      assert x.fields["water"] == y.fields["water"] && x.fields["metabolism"] == y.fields["metabolism"];
    }
  }

  lemma GroupsJsonInjective(a: PatientData, b: PatientData)
    requires BioimpedanceJson(a.bioimpedance) == BioimpedanceJson(b.bioimpedance)
    requires HabitsJson(a.habits) == HabitsJson(b.habits)
    requires PlanJson(a.plan) == PlanJson(b.plan)
    ensures a.bioimpedance == b.bioimpedance && a.habits == b.habits && a.plan == b.plan
  {
    var bioA, bioB := BioimpedanceJson(a.bioimpedance).fields, BioimpedanceJson(b.bioimpedance).fields;
    assert bioA["fat_percentage"] == bioB["fat_percentage"] && bioA["muscle_mass"] == bioB["muscle_mass"];
    assert bioA["water_percentage"] == bioB["water_percentage"] && bioA["basal_metabolism"] == bioB["basal_metabolism"];
    assert bioA["url"] == bioB["url"];
    var habA, habB := HabitsJson(a.habits).fields, HabitsJson(b.habits).fields;
    assert habA["food_plan_text"] == habB["food_plan_text"] && habA["errors"] == habB["errors"];
    assert habA["improvements"] == habB["improvements"] && habA["url"] == habB["url"];
    var planA, planB := PlanJson(a.plan).fields, PlanJson(b.plan).fields;
    assert planA["substitutions_example"] == planB["substitutions_example"];
    assert planA["shopping_prioritize"] == planB["shopping_prioritize"] && planA["shopping_avoid"] == planB["shopping_avoid"];
    assert planA["supplements"] == planB["supplements"];
    StringsJsonInjective(a.plan.supplements, b.plan.supplements);
  }

  /** Distinct records serialise differently: every saved field can be read back. */
  lemma ToJsonInjective(a: PatientData, b: PatientData)
    requires ToJson(a) == ToJson(b)
    ensures a == b
  {
    var ja, jb := ToJson(a), ToJson(b);
    assert ja["name"] == jb["name"] && ja["details"] == jb["details"];
    assert ja["consultation_date"] == jb["consultation_date"];
    assert ja["results"].fields["prediction_text"] == jb["results"].fields["prediction_text"];
    assert ja["bioimpedance"] == jb["bioimpedance"] && ja["habits"] == jb["habits"] && ja["plan"] == jb["plan"];
    GroupsJsonInjective(a, b);
    assert ja["signals"] == jb["signals"];
    StringsJsonInjective(a.signals, b.signals);
    assert ja["goals"] == jb["goals"];
    GoalsJsonInjective(a.goals, b.goals);
    assert ja["evolution"] == jb["evolution"];
    EvolutionJsonInjective(a.evolution, b.evolution);
  }
}

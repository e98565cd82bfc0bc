/**
 * FilterHandler (src/bot/handlers/filters.py): the filter dialogue.  Button
 * presses are routed by the prefix of their callback data, typed answers are
 * matched against the per-user pending input, and the outcome of each event is
 * an `Action` that the Telegram and database layers would carry out.
 */
module FilterHandlers {
  import opened Wrappers
  import opened Strings
  import opened Keyboards

  /** The filter types the dialogue stores, in the order the summary lists them. */
  datatype Field = Profession | SalaryMin | Experience | Schedule | Employment | Area

  /** The filter_type string under which the repository stores a field. */
  function FieldName(f: Field): string
  {
    match f
    case Profession => "profession"
    case SalaryMin => "salary_min"
    case Experience => "experience"
    case Schedule => "schedule"
    case Employment => "employment"
    case Area => "area"
  }

  /** The fields that can wait for a typed answer. */
  predicate Typed(f: Field) {
    f == SalaryMin || f == Profession || f == Area
  }

  /** What handling one event amounts to. */
  datatype Action =
    | ShowFilters                      // show_filters_menu
    | MainMenu                         // back to the main menu
    | OpenKeyboard(filter: Field)      // edit the message to show the filter's keyboard
    | AskInput(input: Field)           // prompt for a typed value, which is now pending
    | Save(field: Field, value: string) // save_filter, then confirm and show the filter menu
    | ClearAll                         // clear_all_filters, then the main keyboard
    | FiltersSaved                     // filters_save: confirmation, then the main menu
    | Reprompt                          // "please enter a number", the input stays pending
    | UnknownCommand                   // the "unknown command" answer
    | Nothing                          // no branch applies

  // ---- _format_filters_text ----

  const NotConfigured: string := "❌ Фильтры не настроены"

  const ExperienceNames: map<string, string> :=
    map["noExperience" := "Без опыта", "between1And3" := "1-3 года",
        "between3And6" := "3-6 лет", "moreThan6" := "Более 6 лет"]

  const ScheduleNames: map<string, string> :=
    map["office" := "Офис", "remote" := "Удалённо", "hybrid" := "Гибрид", "flexible" := "Гибкий график"]

  const EmploymentNames: map<string, string> :=
    map["fullDay" := "Полный день", "partDay" := "Частичная", "project" := "Проектная", "internship" := "Стажировка"]

  const AreaNames: map<string, string> :=
    map["1" := "Москва", "2" := "Санкт-Петербург", "3" := "Екатеринбург", "4" := "Новосибирск", "remote" := "Удалённо"]

  /** The display names a field's value is looked up in; profession and salary have none. */
  function NamesOf(f: Field): map<string, string>
  {
    match f
    case Experience => ExperienceNames
    case Schedule => ScheduleNames
    case Employment => EmploymentNames
    case Area => AreaNames
    case _ => map[]
  }

  /** `names.get(v, v)`. */
  function Display(names: map<string, string>, v: string): string
  {
    if v in names then names[v] else v
  }

  function Label(f: Field): (r: string)
    ensures |r| > 0 && r[0] != '❌'
  {
    match f
    case Profession => "💼 Профессия: "
    case SalaryMin => "💰 Зарплата от: "
    case Experience => "🎓 Опыт: "
    case Schedule => "📍 Формат: "
    case Employment => "🏢 Занятость: "
    case Area => "🌍 Город: "
  }

  function Suffix(f: Field): string
  {
    if f == SalaryMin then " руб." else ""
  }

  /** The summary line of one filter. */
  function Line(f: Field, value: string): (r: string)
    ensures |r| > 0 && r[0] == Label(f)[0]
  {
    Label(f) + Display(NamesOf(f), value) + Suffix(f)
  }

  /** The line of `field` when the filter is truthy, nothing otherwise. */
  function Part(filters: map<string, string>, f: Field): seq<string>
  {
    if Truthy(filters, FieldName(f)) then [Line(f, filters[FieldName(f)])] else []
  }

  /** The `parts` list, filled in the order of the six `if` statements. */
  function Lines(filters: map<string, string>): seq<string>
  {
    Part(filters, Profession) + (Part(filters, SalaryMin) + (Part(filters, Experience)
      + (Part(filters, Schedule) + (Part(filters, Employment) + Part(filters, Area)))))
  }

  /** `_format_filters_text`. */
  function FormatFiltersText(filters: map<string, string>): string
  {
    if |filters| == 0 then NotConfigured
    else
      var parts := Lines(filters);
      if parts == [] then NotConfigured else Join(parts, "\n")
  }

  /** The six fields in summary order, as a list. */
  const FieldOrder: seq<Field> := [Profession, SalaryMin, Experience, Schedule, Employment, Area]

  /** An independent reading of the summary: one line per truthy field of `fields`, in that order. */
  function LinesIn(filters: map<string, string>, fields: seq<Field>): seq<string>
  {
    if fields == [] then []
    else
      (if Truthy(filters, FieldName(fields[0])) then [Line(fields[0], filters[FieldName(fields[0])])] else [])
        + LinesIn(filters, fields[1..])
  }

  predicate Configured(filters: map<string, string>) {
    exists f: Field :: Truthy(filters, FieldName(f))
  }

  /** The summary keeps the fixed field order and shows exactly the truthy fields. */
  lemma LinesInFieldOrder(filters: map<string, string>)
    ensures Lines(filters) == LinesIn(filters, FieldOrder)
  {
    LinesInCons(filters, Area, []);
    assert Part(filters, Area) + [] == Part(filters, Area);
    LinesInCons(filters, Employment, [Area]);
    LinesInCons(filters, Schedule, [Employment, Area]);
    LinesInCons(filters, Experience, [Schedule, Employment, Area]);
    LinesInCons(filters, SalaryMin, [Experience, Schedule, Employment, Area]);
    LinesInCons(filters, Profession, [SalaryMin, Experience, Schedule, Employment, Area]);
  }

  lemma LinesInCons(filters: map<string, string>, f: Field, rest: seq<Field>)
    ensures LinesIn(filters, [f] + rest) == Part(filters, f) + LinesIn(filters, rest)
  {
    assert ([f] + rest)[1..] == rest;
  }

  lemma LinesEmpty(filters: map<string, string>)
    ensures Lines(filters) == [] <==> !Configured(filters)
  {
    if Configured(filters) {
      var f: Field :| Truthy(filters, FieldName(f));
      assert |Part(filters, f)| == 1;
    }
  }

  /** "Not configured" is shown exactly when no known filter is truthy. */
  lemma NotConfiguredIff(filters: map<string, string>)
    ensures FormatFiltersText(filters) == NotConfigured <==> !Configured(filters)
  {
    LinesEmpty(filters);
    if Configured(filters) {
      var parts := Lines(filters);
      var f: Field :| Truthy(filters, FieldName(f));
      assert FieldName(f) in filters;
      assert |filters| != 0;
      JoinHead(parts, "\n");
      FirstLine(filters);
      var g :| g in FieldOrder && Truthy(filters, FieldName(g)) && parts[0] == Line(g, filters[FieldName(g)]);
      assert parts[0][0] != '❌';
      assert NotConfigured[0] == '❌';
    }
  }

  lemma FirstLine(filters: map<string, string>)
    requires Lines(filters) != []
    ensures exists g :: g in FieldOrder && Truthy(filters, FieldName(g)) && Lines(filters)[0] == Line(g, filters[FieldName(g)])
  {
    if Truthy(filters, "profession") { assert Profession in FieldOrder; }
    else if Truthy(filters, "salary_min") { assert SalaryMin in FieldOrder; }
    else if Truthy(filters, "experience") { assert Experience in FieldOrder; }
    else if Truthy(filters, "schedule") { assert Schedule in FieldOrder; }
    else if Truthy(filters, "employment") { assert Employment in FieldOrder; }
    else { assert Area in FieldOrder; }
  }

  /** A value without a display name is shown as it is stored. */
  lemma UnknownShownRaw(f: Field, value: string)
    requires value !in NamesOf(f)
    ensures Line(f, value) == Label(f) + value + Suffix(f)
  {
  }

  /** No display name holds a line break. */
  lemma NamesFree(f: Field, value: string)
    requires value in NamesOf(f)
    ensures Free(NamesOf(f)[value], '\n')
  {
    match f
    case Experience => ExperienceNamesFree();
    case Schedule => ScheduleNamesFree();
    case Employment => EmploymentNamesFree();
    case Area => AreaNamesFree();
  }

  lemma ExperienceNamesFree()
    ensures forall v :: v in ExperienceNames ==> Free(ExperienceNames[v], '\n')
  {
  }

  lemma ScheduleNamesFree()
    ensures forall v :: v in ScheduleNames ==> Free(ScheduleNames[v], '\n')
  {
  }

  lemma EmploymentNamesFree()
    ensures forall v :: v in EmploymentNames ==> Free(EmploymentNames[v], '\n')
  {
  }

  lemma AreaNamesFree()
    ensures forall v :: v in AreaNames ==> Free(AreaNames[v], '\n')
  {
  }

  lemma LineFree(f: Field, value: string)
    requires Free(value, '\n')
    ensures Free(Line(f, value), '\n')
  {
    var shown := Display(NamesOf(f), value);
    if value in NamesOf(f) { NamesFree(f, value); }
    var l, s := Label(f), Suffix(f);
    assert Free(l, '\n') && Free(s, '\n');
    var r := l + shown + s;
    assert forall i :: 0 <= i < |r| ==> r[i] == (if i < |l| then l[i] else if i < |l| + |shown| then shown[i - |l|] else s[i - |l| - |shown|]);
  }

  /** Splitting a configured summary at line breaks gives back its lines, when no stored value holds a line break. */
  lemma SummaryLines(filters: map<string, string>)
    requires Configured(filters)
    requires forall k :: k in filters ==> Free(filters[k], '\n')
    ensures Split(FormatFiltersText(filters), '\n') == Lines(filters)
  {
    LinesEmpty(filters);
    var f: Field :| Truthy(filters, FieldName(f));
    assert |filters| != 0;
    var parts := Lines(filters);
    forall k | 0 <= k < |parts| ensures Free(parts[k], '\n') {
      LinesFree(filters, k);
    }
    SplitJoin(parts, '\n');
  }

  lemma LinesFree(filters: map<string, string>, k: nat)
    requires forall key :: key in filters ==> Free(filters[key], '\n')
    requires k < |Lines(filters)|
    ensures Free(Lines(filters)[k], '\n')
  {
    LinesInFieldOrder(filters);
    LinesInFree(filters, FieldOrder, k);
  }

  lemma {:induction false} LinesInFree(filters: map<string, string>, fields: seq<Field>, k: nat)
    requires forall key :: key in filters ==> Free(filters[key], '\n')
    requires k < |LinesIn(filters, fields)|
    ensures Free(LinesIn(filters, fields)[k], '\n')
    decreases |fields|
  {
    var head := if Truthy(filters, FieldName(fields[0])) then [Line(fields[0], filters[FieldName(fields[0])])] else [];
    var rest := LinesIn(filters, fields[1..]);
    assert LinesIn(filters, fields) == head + rest;
    if k < |head| {
      LineFree(fields[0], filters[FieldName(fields[0])]);
      assert LinesIn(filters, fields)[k] == head[0];
    } else {
      LinesInFree(filters, fields[1..], k - |head|);
      assert LinesIn(filters, fields)[k] == rest[k - |head|];
    }
  }

  // ---- handle_callback routing ----

  datatype Route = ToFilters | ToMain | Selection | ValueChoice | FilterActions | Unknown

  predicate HasValuePrefix(data: string) {
    StartsWith(data, "prof_") || StartsWith(data, "exp_") || StartsWith(data, "schedule_")
      || StartsWith(data, "employment_") || StartsWith(data, "area_")
  }

  /** The `if`/`elif` chain of `handle_callback`: the first rule that matches wins. */
  function RouteCallback(data: string): Route
  {
    if data == "back_to_filters" then ToFilters
    else if data == "back_to_main" then ToMain
    else if StartsWith(data, "filter_") then Selection
    else if HasValuePrefix(data) then ValueChoice
    else if StartsWith(data, "filters_") then FilterActions
    else Unknown
  }

  /** Two prefixes of the same text agree on the shorter one's length. */
  lemma CommonPrefix(s: string, p: string, q: string, i: nat)
    requires StartsWith(s, p) && StartsWith(s, q) && i < |p| && i < |q|
    ensures p[i] == q[i]
  {
    assert s[..|p|][i] == s[i] == s[..|q|][i];
  }

  /** The selection family, the five value families and the action family never overlap. */
  lemma PrefixFamiliesDisjoint(data: string)
    ensures !(StartsWith(data, "filter_") && HasValuePrefix(data))
    ensures !(StartsWith(data, "filter_") && StartsWith(data, "filters_"))
    ensures !(HasValuePrefix(data) && StartsWith(data, "filters_"))
    ensures StartsWith(data, "exp_") ==> !StartsWith(data, "employment_")
  {
    if StartsWith(data, "filter_") && StartsWith(data, "filters_") {
      CommonPrefix(data, "filter_", "filters_", 6);
    }
    if StartsWith(data, "exp_") && StartsWith(data, "employment_") {
      CommonPrefix(data, "exp_", "employment_", 1);
    }
    if |data| > 0 {
      assert StartsWith(data, "filter_") || StartsWith(data, "filters_") ==> data[0] == 'f';
      assert StartsWith(data, "prof_") ==> data[0] == 'p';
      assert StartsWith(data, "exp_") ==> data[0] == 'e';
      assert StartsWith(data, "schedule_") ==> data[0] == 's';
      assert StartsWith(data, "employment_") ==> data[0] == 'e';
      assert StartsWith(data, "area_") ==> data[0] == 'a';
    }
  }

  /** Because the families are disjoint, the order of the rules does not matter: each route is its family. */
  lemma RouteIsFamily(data: string)
    ensures RouteCallback(data) == Selection <==> StartsWith(data, "filter_")
    ensures RouteCallback(data) == ValueChoice <==> HasValuePrefix(data)
    ensures RouteCallback(data) == FilterActions <==> StartsWith(data, "filters_")
  {
    PrefixFamiliesDisjoint(data);
    if data == "back_to_filters" || data == "back_to_main" {
      assert data[0] == 'b';
    }
  }

  /** The pattern the callback handler is registered with. */
  predicate Registered(data: string) {
    StartsWith(data, "filter_") || HasValuePrefix(data) || StartsWith(data, "filters_") || StartsWith(data, "back_to_")
  }

  /** Of the data the handler receives, only `back_to_` data other than the two known targets reaches the fallback. */
  lemma RegisteredRoutes(data: string)
    requires Registered(data)
    ensures RouteCallback(data) == Unknown <==> StartsWith(data, "back_to_") && data != "back_to_filters" && data != "back_to_main"
  {
    RouteIsFamily(data);
    if StartsWith(data, "back_to_") {
      assert data[0] == 'b';
    }
  }

  /** The keyboard `handle_filter_selection` shows for a filter; the salary has none. */
  function KeyboardOf(f: Field): Keyboard
    requires f != SalaryMin
  {
    match f
    case Profession => ProfessionKeyboard()
    case Experience => ExperienceKeyboard()
    case Schedule => ScheduleKeyboard()
    case Employment => EmploymentKeyboard()
    case Area => AreaKeyboard()
  }

  /** `handle_filter_selection`: the chosen filter's keyboard, or the salary prompt. */
  function SelectionAction(data: string): Action
  {
    if data == "filter_profession" then OpenKeyboard(Profession)
    else if data == "filter_salary" then AskInput(SalaryMin)
    else if data == "filter_experience" then OpenKeyboard(Experience)
    else if data == "filter_schedule" then OpenKeyboard(Schedule)
    else if data == "filter_employment" then OpenKeyboard(Employment)
    else if data == "filter_area" then OpenKeyboard(Area)
    else Nothing
  }

  /** The callback prefix of a field's value buttons; the salary has none. */
  function ButtonPrefix(f: Field): string
  {
    match f
    case Profession => "prof_"
    case SalaryMin => ""
    case Experience => "exp_"
    case Schedule => "schedule_"
    case Employment => "employment_"
    case Area => "area_"
  }

  /** `handle_filter_value`: the button's value is the data with every occurrence of its prefix removed. */
  function ValueAction(data: string): Action
  {
    if StartsWith(data, "prof_") then
      var v := RemoveAll(data, "prof_");
      if v == "custom" then AskInput(Profession) else Save(Profession, v)
    else if StartsWith(data, "exp_") then Save(Experience, RemoveAll(data, "exp_"))
    else if StartsWith(data, "schedule_") then Save(Schedule, RemoveAll(data, "schedule_"))
    else if StartsWith(data, "employment_") then Save(Employment, RemoveAll(data, "employment_"))
    else if StartsWith(data, "area_") then
      var v := RemoveAll(data, "area_");
      if v == "custom" then AskInput(Area) else Save(Area, v)
    else Nothing
  }

  /** `handle_filter_actions`. */
  function ActionsAction(data: string): Action
  {
    if data == "filters_save" then FiltersSaved
    else if data == "filters_clear" then ClearAll
    else Nothing
  }

  /** What one callback amounts to. */
  function CallbackAction(data: string): Action
  {
    match RouteCallback(data)
    case ToFilters => ShowFilters
    case ToMain => MainMenu
    case Selection => SelectionAction(data)
    case ValueChoice => ValueAction(data)
    case FilterActions => ActionsAction(data)
    case Unknown => UnknownCommand
  }

  /** The pending-input map after an action for `user`: only a prompt changes it, and only for that user. */
  function PendingAfter(waiting: map<int, Field>, user: int, a: Action): (r: map<int, Field>)
    ensures forall u :: u != user ==> (u in r <==> u in waiting) && (u in r ==> r[u] == waiting[u])
    ensures a.AskInput? ==> user in r && r[user] == a.input
    ensures !a.AskInput? ==> r == waiting
  {
    if a.AskInput? then waiting[user := a.input] else waiting
  }

  /** Exactly three kinds of button leave a typed answer pending. */
  lemma PromptingCallbacks(data: string, f: Field)
    ensures CallbackAction(data) == AskInput(f) <==>
      || (data == "filter_salary" && f == SalaryMin)
      || (StartsWith(data, "prof_") && RemoveAll(data, "prof_") == "custom" && f == Profession)
      || (StartsWith(data, "area_") && RemoveAll(data, "area_") == "custom" && f == Area)
  {
    RouteIsFamily(data);
    PrefixFamiliesDisjoint(data);
    assert StartsWith("filter_salary", "filter_");
    var profCustom := StartsWith(data, "prof_") && RemoveAll(data, "prof_") == "custom";
    var areaCustom := StartsWith(data, "area_") && RemoveAll(data, "area_") == "custom";
    if StartsWith(data, "filter_") {
      assert !profCustom && !areaCustom;
      assert CallbackAction(data) == SelectionAction(data);
      assert SelectionAction(data).AskInput? <==> data == "filter_salary";
    } else if HasValuePrefix(data) {
      assert data != "filter_salary";
      assert CallbackAction(data) == ValueAction(data);
      if StartsWith(data, "prof_") {
        assert data[0] == 'p';
        assert !areaCustom;
        assert ValueAction(data).AskInput? <==> profCustom;
      } else {
        assert !profCustom;
        assert ValueAction(data).AskInput? <==> areaCustom;
      }
    } else {
      assert data != "filter_salary" && !profCustom && !areaCustom;
      assert !CallbackAction(data).AskInput?;
    }
  }

  /** The "enter your own" buttons of the profession and city keyboards raise those prompts. */
  lemma CustomPrompt(f: Field)
    requires f == Profession || f == Area
    ensures CallbackAction(ButtonPrefix(f) + "custom") == AskInput(f)
  {
    var prefix := ButtonPrefix(f);
    var data := prefix + "custom";
    AbsentChar("custom", prefix, |prefix| - 1);
    RemoveAllPrefixOnce(prefix, "custom");
    StartsWithConcat(prefix, "custom");
    PromptingCallbacks(data, f);
  }

  /** The salary button raises the salary prompt. */
  lemma SalaryPrompt()
    ensures CallbackAction("filter_salary") == AskInput(SalaryMin)
  {
    PromptingCallbacks("filter_salary", SalaryMin);
  }

  /** A button value that does not repeat the prefix is saved as it is. */
  lemma ButtonValueSaved(f: Field, v: string)
    requires f != SalaryMin
    requires !Occurs(v, ButtonPrefix(f)) && v != "custom"
    ensures CallbackAction(ButtonPrefix(f) + v) == Save(f, v)
  {
    var prefix := ButtonPrefix(f);
    var data := prefix + v;
    StartsWithConcat(prefix, v);
    RemoveAllPrefixOnce(prefix, v);
    assert data[0] == prefix[0] && data[1] == prefix[1];
    RouteIsFamily(data);
    assert RouteCallback(data) == ValueChoice;
    // The value families tried before this one do not match.
    match f {
      case Profession =>
      case Experience =>
        NotStartsWithAt(data, "prof_", 0);
      case Schedule =>
        NotStartsWithAt(data, "prof_", 0);
        NotStartsWithAt(data, "exp_", 0);
      case Employment =>
        NotStartsWithAt(data, "prof_", 0);
        NotStartsWithAt(data, "exp_", 1);
        NotStartsWithAt(data, "schedule_", 0);
      case Area =>
        NotStartsWithAt(data, "prof_", 0);
        NotStartsWithAt(data, "exp_", 0);
        NotStartsWithAt(data, "schedule_", 0);
        NotStartsWithAt(data, "employment_", 0);
    }
  }

  /** The prefix is removed wherever it occurs, not only at the front. */
  lemma InnerPrefixRemoved(v: string)
    requires !Occurs(v, "prof_") && v != "custom"
    ensures CallbackAction("prof_prof_" + v) == Save(Profession, v)
  {
    var data := "prof_prof_" + v;
    assert data == "prof_" + ("prof_" + v);
    assert StartsWith(data, "prof_") by { assert data[..5] == "prof_"; }
    RouteIsFamily(data);
    RemoveAllPrefixed("prof_", "prof_" + v);
    RemoveAllPrefixOnce("prof_", v);
  }

  // ---- handle_text_input ----

  /** `''.join(filter(str.isdigit, text))`, with ASCII digits. */
  function DigitsOf(s: string): (r: string)
    ensures AllDigits(r) && |r| <= |s|
  {
    if s == [] then ""
    else (if IsDigit(s[0]) then [s[0]] else "") + DigitsOf(s[1..])
  }

  lemma {:induction false} DigitsOfAppend(s: string, t: string)
    ensures DigitsOf(s + t) == DigitsOf(s) + DigitsOf(t)
  {
    if s == [] {
      assert s + t == t;
    } else {
      assert (s + t)[0] == s[0] && (s + t)[1..] == s[1..] + t;
      DigitsOfAppend(s[1..], t);
    }
  }

  /** No digit is kept exactly when the text has none. */
  lemma {:induction false} DigitsOfEmpty(s: string)
    ensures DigitsOf(s) == "" <==> forall i :: 0 <= i < |s| ==> !IsDigit(s[i])
  {
    if s != [] {
      DigitsOfEmpty(s[1..]);
      assert forall i :: 1 <= i < |s| ==> s[i] == s[1..][i - 1];
    }
  }

  /** A text of digits is kept whole. */
  lemma {:induction false} DigitsOfDigits(s: string)
    requires AllDigits(s)
    ensures DigitsOf(s) == s
  {
    if s != [] {
      DigitsOfDigits(s[1..]);
      assert s == [s[0]] + s[1..];
    }
  }

  /** Every digit of the text survives, in order: `DigitsOf` keeps digit `s[i]` right after the digits before it. */
  lemma DigitsOfKeeps(s: string, i: nat)
    requires i < |s| && IsDigit(s[i])
    ensures DigitsOf(s[..i + 1]) == DigitsOf(s[..i]) + [s[i]]
  {
    assert s[..i + 1] == s[..i] + [s[i]];
    DigitsOfAppend(s[..i], [s[i]]);
    assert [s[i]][1..] == [];
  }

  /** The outcome of a typed answer, given what was pending for the user. */
  function TextAction(pending: Option<Field>, text: string): (a: Action)
    ensures pending.None? ==> a == Nothing
    ensures a.Save? ==> pending == Some(a.field)
  {
    match pending
    case None => Nothing
    case Some(SalaryMin) =>
      var salary := DigitsOf(text);
      if salary == "" then Reprompt else Save(SalaryMin, salary)
    case Some(Profession) => Save(Profession, text)
    case Some(Area) => Save(Area, text)
    case Some(_) => ShowFilters
  }

  /** A typed salary is saved as its digits only, and a text with no digit is asked for again. */
  lemma SalaryInput(text: string)
    ensures TextAction(Some(SalaryMin), text).Save? <==> exists i :: 0 <= i < |text| && IsDigit(text[i])
    ensures TextAction(Some(SalaryMin), text).Save? ==> IsDigitString(TextAction(Some(SalaryMin), text).value)
    ensures !TextAction(Some(SalaryMin), text).Save? ==> TextAction(Some(SalaryMin), text) == Reprompt
  {
    DigitsOfEmpty(text);
  }

  /** Typed professions and cities are saved verbatim. */
  lemma VerbatimInput(text: string)
    ensures TextAction(Some(Profession), text) == Save(Profession, text)
    ensures TextAction(Some(Area), text) == Save(Area, text)
  {
  }

  class FilterHandler {
    /** `waiting_for_input`: user id -> the field whose typed value is awaited. */
    var waiting: map<int, Field>

    predicate Valid()
      reads this
    {
      forall u :: u in waiting ==> Typed(waiting[u])
    }

    constructor ()
      ensures waiting == map[] && Valid()
    {
      waiting := map[];
    }

    /** `handle_callback`. */
    method HandleCallback(userId: int, data: string) returns (action: Action)
      requires Valid()
      modifies this
      ensures Valid()
      ensures action == CallbackAction(data)
      ensures waiting == PendingAfter(old(waiting), userId, action)
    {
      if data == "back_to_filters" {
        action := ShowFilters;
      } else if data == "back_to_main" {
        action := MainMenu;
      } else if StartsWith(data, "filter_") {
        action := HandleFilterSelection(userId, data);
      } else if HasValuePrefix(data) {
        action := HandleFilterValue(userId, data);
      } else if StartsWith(data, "filters_") {
        action := ActionsAction(data);
      } else {
        action := UnknownCommand;
      }
    }

    method HandleFilterSelection(userId: int, data: string) returns (action: Action)
      requires Valid()
      modifies this
      ensures Valid()
      ensures action == SelectionAction(data)
      ensures waiting == PendingAfter(old(waiting), userId, action)
    {
      if data == "filter_profession" {
        action := OpenKeyboard(Profession);
      } else if data == "filter_salary" {
        waiting := waiting[userId := SalaryMin];
        action := AskInput(SalaryMin);
      } else if data == "filter_experience" {
        action := OpenKeyboard(Experience);
      } else if data == "filter_schedule" {
        action := OpenKeyboard(Schedule);
      } else if data == "filter_employment" {
        action := OpenKeyboard(Employment);
      } else if data == "filter_area" {
        action := OpenKeyboard(Area);
      } else {
        action := Nothing;
      }
    }

    method HandleFilterValue(userId: int, data: string) returns (action: Action)
      requires Valid()
      modifies this
      ensures Valid()
      ensures action == ValueAction(data)
      ensures waiting == PendingAfter(old(waiting), userId, action)
    {
      if StartsWith(data, "prof_") {
        var profession := RemoveAll(data, "prof_");
        if profession == "custom" {
          waiting := waiting[userId := Profession];
          action := AskInput(Profession);
        } else {
          action := Save(Profession, profession);
        }
      } else if StartsWith(data, "exp_") {
        action := Save(Experience, RemoveAll(data, "exp_"));
      } else if StartsWith(data, "schedule_") {
        action := Save(Schedule, RemoveAll(data, "schedule_"));
      } else if StartsWith(data, "employment_") {
        action := Save(Employment, RemoveAll(data, "employment_"));
      } else if StartsWith(data, "area_") {
        var area := RemoveAll(data, "area_");
        if area == "custom" {
          waiting := waiting[userId := Area];
          action := AskInput(Area);
        } else {
          action := Save(Area, area);
        }
      } else {
        action := Nothing;
      }
    }

    /** `handle_text_input`: the pending entry is popped, and put back when the salary had no digit. */
    method HandleTextInput(userId: int, text: string) returns (action: Action)
      requires Valid()
      modifies this
      ensures Valid()
      ensures action == TextAction(if userId in old(waiting) then Some(old(waiting)[userId]) else None, text)
      ensures waiting == if userId !in old(waiting) || action == Reprompt then old(waiting) else old(waiting) - {userId}
    {
      if userId !in waiting {
        return Nothing;
      }
      var filterType := waiting[userId];
      ghost var before := waiting;
      waiting := waiting - {userId};
      if filterType == SalaryMin {
        var salary := DigitsOf(text);
        if salary == "" {
          waiting := waiting[userId := filterType];
          assert waiting == before;
          return Reprompt;
        }
        action := Save(SalaryMin, salary);
      } else if filterType == Profession {
        action := Save(Profession, text);
      } else if filterType == Area {
        action := Save(Area, text);
      } else {
        action := ShowFilters;
      }
    }
  }
}

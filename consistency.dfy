/**
 * How the pieces fit together: the buttons of the filter keyboards
 * (src/bot/keyboards/filters.py), the filter handler that receives their
 * callbacks (src/bot/handlers/filters.py), the service that turns the stored
 * filters into search parameters (src/services/filter_service.py), and the
 * scheduler's show-all button (src/services/scheduler_service.py).
 */
module Consistency {
  import opened Wrappers
  import opened Strings
  import opened Values
  import opened Keyboards
  import opened FilterService
  import FilterHandlers
  import VacancyHandlers
  import Scheduler

  /** The filter handler's pattern takes the callback, and a branch that does something handles it. */
  predicate Handles(data: string) {
    && FilterHandlers.Registered(data)
    && !FilterHandlers.CallbackAction(data).UnknownCommand?
    && !FilterHandlers.CallbackAction(data).Nothing?
  }

  /** Every button of the keyboard is handled. */
  predicate Handled(kb: Keyboard) {
    forall i, j :: 0 <= i < |kb| && 0 <= j < |kb[i]| ==> Handles(kb[i][j].data)
  }

  /** A value button whose value lacks a character of the prefix saves exactly that value. */
  lemma ValueButton(f: FilterHandlers.Field, v: string, k: nat)
    requires f != FilterHandlers.SalaryMin
    requires k < |FilterHandlers.ButtonPrefix(f)|
    requires forall i :: 0 <= i < |v| ==> v[i] != FilterHandlers.ButtonPrefix(f)[k]
    requires v != "custom"
    ensures var data := FilterHandlers.ButtonPrefix(f) + v;
      && FilterHandlers.CallbackAction(data) == FilterHandlers.Save(f, v)
      && RemoveAll(data, FilterHandlers.ButtonPrefix(f)) == v
      && Handles(data)
  {
    var prefix := FilterHandlers.ButtonPrefix(f);
    AbsentChar(v, prefix, k);
    FilterHandlers.ButtonValueSaved(f, v);
    RemoveAllPrefixOnce(prefix, v);
    StartsWithConcat(prefix, v);
  }

  /** The back button leads to the filter menu. */
  lemma BackButton()
    ensures FilterHandlers.CallbackAction(BackToFilters.data) == FilterHandlers.ShowFilters
    ensures Handles(BackToFilters.data)
  {
    StartsWithConcat("back_to_", "filters");
    assert "back_to_filters" == "back_to_" + "filters";
  }

  /**
   * A keyboard of value buttons for `f`, optionally followed by an "enter your
   * own" button, and closed by the back row (`absent[i]` is a position of the
   * prefix whose character value i lacks): each value button saves its value,
   * the last-but-one button asks for a typed one, and every button is handled.
   */
  lemma ValueKeyboard(kb: Keyboard, f: FilterHandlers.Field, values: seq<string>, absent: seq<nat>, custom: bool)
    requires f != FilterHandlers.SalaryMin
    requires |absent| == |values| && forall i :: 0 <= i < |values| ==> absent[i] < |FilterHandlers.ButtonPrefix(f)|
    requires custom ==> f == FilterHandlers.Profession || f == FilterHandlers.Area
    requires var n := |values| + (if custom then 1 else 0); |kb| == n + 1 && kb[n] == [BackToFilters]
    requires forall i :: 0 <= i < |values| ==> |kb[i]| == 1 && kb[i][0].data == FilterHandlers.ButtonPrefix(f) + values[i]
    requires custom ==> |kb[|values|]| == 1 && kb[|values|][0].data == FilterHandlers.ButtonPrefix(f) + "custom"
    requires forall i :: 0 <= i < |values| ==> values[i] != "custom"
    requires forall i, j :: 0 <= i < |values| && 0 <= j < |values[i]| ==> values[i][j] != FilterHandlers.ButtonPrefix(f)[absent[i]]
    ensures forall i :: 0 <= i < |values| ==>
      && RemoveAll(kb[i][0].data, FilterHandlers.ButtonPrefix(f)) == values[i]
      && FilterHandlers.CallbackAction(kb[i][0].data) == FilterHandlers.Save(f, values[i])
    ensures custom ==> FilterHandlers.CallbackAction(kb[|values|][0].data) == FilterHandlers.AskInput(f)
    ensures Handled(kb)
  {
    var prefix := FilterHandlers.ButtonPrefix(f);
    forall i | 0 <= i < |values|
      ensures RemoveAll(kb[i][0].data, prefix) == values[i]
      ensures FilterHandlers.CallbackAction(kb[i][0].data) == FilterHandlers.Save(f, values[i])
      ensures Handles(kb[i][0].data)
    {
      ValueButton(f, values[i], absent[i]);
    }
    if custom {
      FilterHandlers.CustomPrompt(f);
      StartsWithConcat(prefix, "custom");
    }
    BackButton();
    forall i, j | 0 <= i < |kb| && 0 <= j < |kb[i]| ensures Handles(kb[i][j].data) {
      if i < |values| {
        assert j == 0;
      } else if custom && i == |values| {
        assert j == 0 && Handles(kb[|values|][0].data);
      } else {
        assert kb[i] == [BackToFilters];
      }
    }
  }

  /** The back row closes every sub-keyboard. */
  lemma BackRows()
    ensures forall kb :: kb in SubKeyboards() ==> |kb| > 0 && kb[|kb| - 1] == [BackToFilters]
  {
  }

  /** A filter selection button reaches `handle_filter_selection`. */
  lemma SelectionRoute(suffix: string)
    ensures FilterHandlers.CallbackAction("filter_" + suffix) == FilterHandlers.SelectionAction("filter_" + suffix)
    ensures FilterHandlers.Registered("filter_" + suffix)
  {
    StartsWithConcat("filter_", suffix);
    FilterHandlers.RouteIsFamily("filter_" + suffix);
  }

  /** A filter action button reaches `handle_filter_actions`. */
  lemma ActionRoute(suffix: string)
    ensures FilterHandlers.CallbackAction("filters_" + suffix) == FilterHandlers.ActionsAction("filters_" + suffix)
    ensures FilterHandlers.Registered("filters_" + suffix)
  {
    StartsWithConcat("filters_", suffix);
    FilterHandlers.RouteIsFamily("filters_" + suffix);
  }

  /** The callback data of the main menu, row by row. */
  predicate MenuData(kb: Keyboard) {
    && |kb| == 7 && (forall i :: 0 <= i < 6 ==> |kb[i]| == 1) && |kb[6]| == 2
    && kb[0][0].data == "filter_" + "profession"
    && kb[1][0].data == "filter_" + "salary"
    && kb[2][0].data == "filter_" + "experience"
    && kb[3][0].data == "filter_" + "schedule"
    && kb[4][0].data == "filter_" + "employment"
    && kb[5][0].data == "filter_" + "area"
    && kb[6][0].data == "filters_" + "save"
    && kb[6][1].data == "filters_" + "clear"
  }

  /** The main menu of the filter dialogue carries that data. */
  lemma MainMenuData(current: Option<map<string, string>>)
    ensures MenuData(FiltersMainKeyboard(current))
  {
  }

  /**
   * A menu with that data: five buttons open the keyboard of their filter, the
   * salary button asks for a number, the last row saves or clears, and each
   * button is handled.
   */
  lemma MenuRoutes(kb: Keyboard)
    requires MenuData(kb)
    ensures FilterHandlers.CallbackAction(kb[0][0].data) == FilterHandlers.OpenKeyboard(FilterHandlers.Profession)
    ensures FilterHandlers.CallbackAction(kb[1][0].data) == FilterHandlers.AskInput(FilterHandlers.SalaryMin)
    ensures FilterHandlers.CallbackAction(kb[2][0].data) == FilterHandlers.OpenKeyboard(FilterHandlers.Experience)
    ensures FilterHandlers.CallbackAction(kb[3][0].data) == FilterHandlers.OpenKeyboard(FilterHandlers.Schedule)
    ensures FilterHandlers.CallbackAction(kb[4][0].data) == FilterHandlers.OpenKeyboard(FilterHandlers.Employment)
    ensures FilterHandlers.CallbackAction(kb[5][0].data) == FilterHandlers.OpenKeyboard(FilterHandlers.Area)
    ensures FilterHandlers.CallbackAction(kb[6][0].data) == FilterHandlers.FiltersSaved
    ensures FilterHandlers.CallbackAction(kb[6][1].data) == FilterHandlers.ClearAll
    ensures && Handles(kb[0][0].data) && Handles(kb[1][0].data) && Handles(kb[2][0].data) && Handles(kb[3][0].data)
            && Handles(kb[4][0].data) && Handles(kb[5][0].data) && Handles(kb[6][0].data) && Handles(kb[6][1].data)
  {
    SelectionOpens();
    SelectionRoute("profession");
    SelectionRoute("salary");
    SelectionRoute("experience");
    SelectionRoute("schedule");
    SelectionRoute("employment");
    SelectionRoute("area");
    ActionRoute("save");
    ActionRoute("clear");
  }

  /** `handle_filter_selection` opens the keyboard each selection button names, or the salary prompt. */
  lemma SelectionOpens()
    ensures FilterHandlers.SelectionAction("filter_" + "profession") == FilterHandlers.OpenKeyboard(FilterHandlers.Profession)
    ensures FilterHandlers.SelectionAction("filter_" + "salary") == FilterHandlers.AskInput(FilterHandlers.SalaryMin)
    ensures FilterHandlers.SelectionAction("filter_" + "experience") == FilterHandlers.OpenKeyboard(FilterHandlers.Experience)
    ensures FilterHandlers.SelectionAction("filter_" + "schedule") == FilterHandlers.OpenKeyboard(FilterHandlers.Schedule)
    ensures FilterHandlers.SelectionAction("filter_" + "employment") == FilterHandlers.OpenKeyboard(FilterHandlers.Employment)
    ensures FilterHandlers.SelectionAction("filter_" + "area") == FilterHandlers.OpenKeyboard(FilterHandlers.Area)
    ensures FilterHandlers.ActionsAction("filters_" + "save") == FilterHandlers.FiltersSaved
    ensures FilterHandlers.ActionsAction("filters_" + "clear") == FilterHandlers.ClearAll
  {
    assert "filter_" + "profession" == "filter_profession";
    assert "filter_" + "salary" == "filter_salary";
    assert "filter_" + "experience" == "filter_experience";
    assert "filter_" + "schedule" == "filter_schedule";
    assert "filter_" + "employment" == "filter_employment";
    assert "filter_" + "area" == "filter_area";
    assert "filters_" + "save" == "filters_save";
    assert "filters_" + "clear" == "filters_clear";
  }

  /** Every experience button saves one of the four codes the service passes on, and the summary has a name for it. */
  lemma ExperienceButtons()
    ensures var kb := ExperienceKeyboard();
      forall i :: 0 <= i < |kb| - 1 ==>
        && |kb[i]| == 1
        && var v := RemoveAll(kb[i][0].data, "exp_");
        && FilterHandlers.CallbackAction(kb[i][0].data) == FilterHandlers.Save(FilterHandlers.Experience, v)
        && v in ExperienceCodes && v in FilterHandlers.ExperienceNames
    ensures Handled(ExperienceKeyboard())
  {
    var values: seq<string> := ["noExperience", "between1And3", "between3And6", "moreThan6"];
    ValueKeyboard(ExperienceKeyboard(), FilterHandlers.Experience, values, [3, 3, 3, 3], false);
  }

  /** Every format button saves a format the service knows an HH schedule for, and the summary has a name for it. */
  lemma ScheduleButtons()
    ensures var kb := ScheduleKeyboard();
      forall i :: 0 <= i < |kb| - 1 ==>
        && |kb[i]| == 1
        && var v := RemoveAll(kb[i][0].data, "schedule_");
        && FilterHandlers.CallbackAction(kb[i][0].data) == FilterHandlers.Save(FilterHandlers.Schedule, v)
        && v in ScheduleCodes && v in FilterHandlers.ScheduleNames
    ensures Handled(ScheduleKeyboard())
  {
    var values: seq<string> := ["office", "remote", "hybrid", "flexible"];
    ValueKeyboard(ScheduleKeyboard(), FilterHandlers.Schedule, values, [8, 8, 8, 8], false);
  }

  /** Every employment button saves a type the summary has a name for; the search does not use it. */
  lemma EmploymentButtons()
    ensures var kb := EmploymentKeyboard();
      forall i :: 0 <= i < |kb| - 1 ==>
        && |kb[i]| == 1
        && var v := RemoveAll(kb[i][0].data, "employment_");
        && FilterHandlers.CallbackAction(kb[i][0].data) == FilterHandlers.Save(FilterHandlers.Employment, v)
        && v in FilterHandlers.EmploymentNames
    ensures Handled(EmploymentKeyboard())
  {
    var values: seq<string> := ["fullDay", "partDay", "project", "internship"];
    ValueKeyboard(EmploymentKeyboard(), FilterHandlers.Employment, values, [10, 10, 10, 10], false);
  }

  /** The six listed professions are saved as non-empty search texts; the button after them asks for one. */
  lemma ProfessionButtons()
    ensures var kb := ProfessionKeyboard();
      && |kb| == 8
      && (forall i :: 0 <= i < 6 ==>
        && |kb[i]| == 1
        && var v := RemoveAll(kb[i][0].data, "prof_");
        && FilterHandlers.CallbackAction(kb[i][0].data) == FilterHandlers.Save(FilterHandlers.Profession, v)
        && v != "")
      && FilterHandlers.CallbackAction(kb[6][0].data) == FilterHandlers.AskInput(FilterHandlers.Profession)
    ensures Handled(ProfessionKeyboard())
  {
    // "prof_"[4] is '_', which only "data_science" contains; that one lacks the 'f' at [3].
    var values: seq<string> := ["python", "data_science", "backend", "frontend", "devops", "qa"];
    ValueKeyboard(ProfessionKeyboard(), FilterHandlers.Profession, values, [4, 3, 4, 4, 4, 4], true);
  }

  /** Every area button saves one of the codes the summary has a name for, and the last but one asks for a typed area. */
  lemma AreaButtons()
    ensures var kb := AreaKeyboard();
      && |kb| == 7
      && (forall i :: 0 <= i < 5 ==>
        && |kb[i]| == 1
        && var v := RemoveAll(kb[i][0].data, "area_");
        && FilterHandlers.CallbackAction(kb[i][0].data) == FilterHandlers.Save(FilterHandlers.Area, v)
        && v in FilterHandlers.AreaNames)
      && FilterHandlers.CallbackAction(kb[5][0].data) == FilterHandlers.AskInput(FilterHandlers.Area)
    ensures Handled(AreaKeyboard())
  {
    var values: seq<string> := ["1", "2", "4", "3", "remote"];
    ValueKeyboard(AreaKeyboard(), FilterHandlers.Area, values, [4, 4, 4, 4, 4], true);
    assert forall i :: 0 <= i < 5 ==> values[i] in FilterHandlers.AreaNames;
  }

  /** The service searches a known area code as an hh.ru area id, and "remote" as remote work. */
  lemma AreaCodesSearched()
    ensures forall v :: v in FilterHandlers.AreaNames ==>
      if v == "remote" then AreaRuleOf(map["area" := v]) == RemoteArea
      else IsDigitString(v) && AreaRuleOf(map["area" := v]) == AreaId(DecimalValue(v))
  {
    assert !IsDigit("remote"[0]);
  }

  /** A typed salary that is saved always parses, so the search asks for salaries from it, with salary only. */
  lemma TypedSalarySearched(text: string, filters: map<string, string>, p: map<Key, Value>)
    requires FilterHandlers.TextAction(Some(FilterHandlers.SalaryMin), text).Save?
    requires Normalizes(filters["salary_min" := FilterHandlers.TextAction(Some(FilterHandlers.SalaryMin), text).value], p)
    ensures Salary in p && p[Salary] == Int(DecimalValue(FilterHandlers.DigitsOf(text)))
    ensures OnlyWithSalary in p && p[OnlyWithSalary] == Bool(true)
  {
    FilterHandlers.SalaryInput(text);
  }

  /**
   * The show-all button the scheduler sends matches neither the filter
   * handler's pattern nor the vacancy handler's pattern as written, although
   * the vacancy handler has a branch for it; the corrected pattern routes it.
   */
  lemma ShowAllButtonUnrouted()
    ensures Scheduler.ShowAllButton.data == "show_all_vacancies"
    ensures !FilterHandlers.Registered(Scheduler.ShowAllButton.data)
    ensures !VacancyHandlers.RegisteredAsWritten(Scheduler.ShowAllButton.data)
    ensures VacancyHandlers.Registered(Scheduler.ShowAllButton.data)
  {
    var d := Scheduler.ShowAllButton.data;
    VacancyHandlers.ShowAllUnregistered();
    VacancyHandlers.KeyboardDataRegistered(0, 0, None);
    NotStartsWithAt(d, "filter_", 0);
    NotStartsWithAt(d, "filters_", 0);
    NotStartsWithAt(d, "prof_", 0);
    NotStartsWithAt(d, "exp_", 0);
    NotStartsWithAt(d, "schedule_", 1);
    NotStartsWithAt(d, "employment_", 0);
    NotStartsWithAt(d, "area_", 0);
    NotStartsWithAt(d, "back_to_", 0);
  }
}

/**
 * The inline keyboards of the filter dialogue (src/bot/keyboards/filters.py):
 * constant tables of (label, callback_data) buttons, one list per keyboard row.
 */
module Keyboards {
  import opened Wrappers

  datatype Button = Button(text: string, data: string)

  type Keyboard = seq<seq<Button>>

  /** Every callback_data carried by a keyboard, row by row, left to right. */
  function CallbackData(kb: Keyboard): (r: seq<string>)
    ensures |kb| > 0 && |kb[|kb| - 1]| > 0 ==> |r| > 0 && r[|r| - 1] == kb[|kb| - 1][|kb[|kb| - 1]| - 1].data
  {
    if kb == [] then [] else CallbackData(kb[..|kb| - 1]) + RowData(kb[|kb| - 1])
  }

  function RowData(row: seq<Button>): (r: seq<string>)
    ensures |r| == |row| && forall i :: 0 <= i < |row| ==> r[i] == row[i].data
  {
    if row == [] then [] else [row[0].data] + RowData(row[1..])
  }

  const BackToFilters := Button("↩️ Назад", "back_to_filters")

  /** A value keyboard: one button per row, closed by the row that goes back to the filter menu. */
  predicate BackClosed(kb: Keyboard) {
    && |kb| > 1 && kb[|kb| - 1] == [BackToFilters]
    && forall i :: 0 <= i < |kb| ==> |kb[i]| == 1
  }

  /** One row per filter field, then saving and clearing side by side; the current filters are accepted and not used. */
  function FiltersMainKeyboard(currentFilters: Option<map<string, string>>): (kb: Keyboard)
    ensures |kb| == 7 && (forall i :: 0 <= i < 6 ==> |kb[i]| == 1) && |kb[6]| == 2
  {
    [ [Button("💼 Профессия", "filter_" + "profession")],
      [Button("💰 Зарплата от", "filter_" + "salary")],
      [Button("🎓 Опыт работы", "filter_" + "experience")],
      [Button("📍 Формат работы", "filter_" + "schedule")],
      [Button("🏢 Тип занятости", "filter_" + "employment")],
      [Button("🌍 Город", "filter_" + "area")],
      [Button("✅ Сохранить и выйти", "filters_" + "save"), Button("🧹 Очистить все", "filters_" + "clear")] ]
  }

  // The value keyboards write each callback_data as its prefix followed by the
  // value, the two parts the filter handler takes apart again.

  function ProfessionKeyboard(): (kb: Keyboard)
    ensures BackClosed(kb)
  {
    [ [Button("Python-разработчик", "prof_" + "python")],
      [Button("Data Scientist", "prof_" + "data_science")],
      [Button("Backend-разработчик", "prof_" + "backend")],
      [Button("Frontend-разработчик", "prof_" + "frontend")],
      [Button("DevOps", "prof_" + "devops")],
      [Button("QA Engineer", "prof_" + "qa")],
      [Button("Ввести свою", "prof_" + "custom")],
      [BackToFilters] ]
  }

  function ExperienceKeyboard(): (kb: Keyboard)
    ensures BackClosed(kb)
  {
    [ [Button("Без опыта", "exp_" + "noExperience")],
      [Button("1-3 года", "exp_" + "between1And3")],
      [Button("3-6 лет", "exp_" + "between3And6")],
      [Button("Более 6 лет", "exp_" + "moreThan6")],
      [BackToFilters] ]
  }

  function ScheduleKeyboard(): (kb: Keyboard)
    ensures BackClosed(kb)
  {
    [ [Button("Офис", "schedule_" + "office")],
      [Button("Удалённо", "schedule_" + "remote")],
      [Button("Гибрид", "schedule_" + "hybrid")],
      [Button("Гибкий график", "schedule_" + "flexible")],
      [BackToFilters] ]
  }

  function EmploymentKeyboard(): (kb: Keyboard)
    ensures BackClosed(kb)
  {
    [ [Button("Полный день", "employment_" + "fullDay")],
      [Button("Частичная", "employment_" + "partDay")],
      [Button("Проектная", "employment_" + "project")],
      [Button("Стажировка", "employment_" + "internship")],
      [BackToFilters] ]
  }

  function AreaKeyboard(): (kb: Keyboard)
    ensures BackClosed(kb)
  {
    [ [Button("Москва", "area_" + "1")],
      [Button("Санкт-Петербург", "area_" + "2")],
      [Button("Новосибирск", "area_" + "4")],
      [Button("Екатеринбург", "area_" + "3")],
      [Button("Удалённо", "area_" + "remote")],
      [Button("Ввести свой", "area_" + "custom")],
      [BackToFilters] ]
  }

  /** The five keyboards that the main filter menu opens. */
  function SubKeyboards(): seq<Keyboard>
  {
    [ProfessionKeyboard(), ExperienceKeyboard(), ScheduleKeyboard(), EmploymentKeyboard(), AreaKeyboard()]
  }
}

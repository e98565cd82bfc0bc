# Job search bot — a Dafny model of its core

The bot is a Telegram bot for searching vacancies on hh.ru. Its four main parts:

- **Filter dialogue.** Users configure search filters: profession, minimum salary, experience, work format, employment type and city. The filters live in a `user_filters` table with one row per user and filter type.
- **Manual search.** A user starts a search by hand. The filters are turned into HH API parameters, the search runs, and the results are shown one at a time with navigation buttons.
- **Periodic search.** A scheduler repeats the search for every active user. It sends only vacancies whose id it has not sent that user before.
- **Keyboards.** Each filter has an inline keyboard, and every button's callback data is taken apart again by the filter handler.

The model has one module per core source file:

- `FilterRepo` (filter_repo.dfy): the filter table as a sequence of rows, in a class with the repository's four operations.
- `FilterService` (filter_service.dfy): `to_hh_params` as a method, plus a key-by-key specification of its result (`Normalizes`). The specification admits exactly one result.
- `HhClient` (hh_client.dfy): the conversion of parameters to strings, the merge with the search defaults, the status rule for the HTTP answer, and the vacancy message including the salary format with thousands separators.
- `Keyboards` (keyboards.dfy): the six filter keyboards, button by button.
- `FilterHandlers` (filter_handler.dfy): the filter handler as a class around its `waiting_for_input` map. Each event results in an `Action`. The module also has the callback routing and the filter summary text.
- `VacancyHandlers` (vacancy_handler.dfy): the handler of the manual search as a class around `user_searches`. It covers the navigation keyboard and the way its callbacks move the stored index. Whether the update came as a message or as a callback (`Origin`) decides which texts reach the user.
- `Scheduler` (scheduler.dfy): the scheduler as a class around its ledger of sent vacancy ids. A round of sending is planned as a list of messages and delivered under a given set of failing sends.
- `Consistency` (consistency.dfy): how the pieces fit together. Every filter keyboard button reaches a handler branch: the menu buttons open a keyboard or prompt, the back button returns to the menu, and the value buttons save values that `to_hh_params` maps, except the employment values, which it ignores.
- `Wrappers`, `Strings`, `Values` (common.dfy): Option; the Python string operations used by the code (`str.replace`, `strip`, `isdigit`, `int`, `str.join`, `str.split`, truthiness of dict values); and the typed parameter values.

What a user does is a parameter of the model, and so is everything the bot receives from outside:
- the HTTP outcome of a search (`Response`);
- the date string of the search window;
- the list of users;
- which Telegram sends raise.

## Model

| member | source | states |
|---|---|---|
| FilterService.ToHhParams | src/services/filter_service.py:20-78 | The result meets `Normalizes`. Text is the profession when truthy. Experience is set only for one of the four codes, passed through unchanged. `salary` and `only_with_salary=True` are set exactly when the salary filter parses as an integer. Schedule follows the format map. The area adds a numeric id, forces `schedule=remote`, or is appended to the text and stripped. |
| FilterService.ApplyArea | src/services/filter_service.py:63-75 | From a parameter map holding every filter but the area, the area step yields a result meeting the whole specification: city id, the remote sentinel, or a city name added to the stripped text. |
| FilterService.NormalizesUnique | src/services/filter_service.py:20-78 | Any two parameter maps that both meet the specification for the same filters are equal, so the specification is a reference definition of the conversion. |
| FilterService.Normalizes | src/services/filter_service.py:20-78 | The key-by-key specification of `to_hh_params`: text, experience, salary, schedule and area rules, and no other key. |
| FilterService.OtherKeysIgnored | src/services/filter_service.py:24-75 | Adding or changing a filter key other than profession, experience, salary_min, schedule or area leaves the parameters unchanged. |
| FilterService.EmploymentIgnored | src/services/filter_service.py:20-78 | The employment filter never reaches the search parameters: the result is the same with it removed. |
| FilterService.AreaNameAloneIsText | src/services/filter_service.py:73-75 | Without a profession, a city name with no surrounding blanks becomes the whole search text. |
| FilterService.ExperienceCodesAreIdentity | src/services/filter_service.py:31-39 | Every allow-listed experience value maps to itself and is non-empty. |
| FilterService.ScheduleCodesNonEmpty | src/services/filter_service.py:53-61 | Every work format in the map has a non-empty HH schedule code, so the `if schedule_value` test always passes for a known format. |
| HhClient.Present | src/services/hh_client.py:66 | The kept entries are exactly the ones whose value is not None, with their values. |
| HhClient.Serialize | src/services/hh_client.py:25-49 | A string value is sent verbatim and an integer in decimal, whether or not the key is `area`. |
| HhClient.PrepareParams | src/services/hh_client.py:25-49 | The result has exactly the keys whose value is not None. Each value is the branch-by-branch string form: booleans lower-cased, integers in decimal, area ints or strings as strings, strings verbatim. |
| HhClient.SerializeBool | src/services/hh_client.py:34-35 | A boolean is sent as "true" or "false". |
| HhClient.SerializeNat | src/services/hh_client.py:36-41 | A non-negative integer is sent as a digit string that parses back to the same number. |
| HhClient.SerializeStr | src/services/hh_client.py:39-44 | A string, the area included, is sent verbatim. |
| HhClient.ResponseItems | src/services/hh_client.py:75-94 | Results are non-empty only for status 200 with an `items` list, and then are that list. An exception, another status or a missing `items` gives no results. |
| HhClient.SearchVacancies | src/services/hh_client.py:51-94 | The query is the defaults overridden by the caller's parameters, without None values, stringified. `search_field` is present exactly when the text is non-empty and `search_field` is not None. Without an area the query asks for area "1". A string text is sent verbatim. The results follow the status rule. |
| HhClient.QueryFor | src/services/hh_client.py:51-73 | The query of `search_vacancies(**params)`: the present keys of the defaults overridden by the parameters, stringified, without `search_field` when the text is missing or empty. |
| HhClient.GroupedDigits | src/services/hh_client.py:132 | Deleting the commas of `f"{n:,}"` gives back the plain decimal form of n. |
| HhClient.GroupedShape | src/services/hh_client.py:132 | Between the commas of `f"{n:,}"`, the first group has one to three digits and every later group exactly three. |
| HhClient.SalaryTextShape | src/services/hh_client.py:124-136 | The salary line has one of four shapes: "A - B CUR", "от A CUR", "до B CUR", or "не указана" when there is no salary object or neither bound is truthy. Amounts have spaces as thousands separators, and the currency defaults to RUR. |
| HhClient.SalaryText | src/services/hh_client.py:124-136 | The salary line, branch by branch: both bounds, only the lower, only the upper, or "не указана". Its shapes are stated by `SalaryTextShape`. |
| HhClient.SpacedThousands | src/services/hh_client.py:132-136 | For a three-digit n, n thousand is shown as those digits, a space and "000". |
| HhClient.SalaryBothBounds | src/services/hh_client.py:131-132 | With both bounds truthy, the line is "A - B CUR" with space-grouped amounts. |
| HhClient.SalaryExample | src/services/hh_client.py:131-132 | 100000 to 150000 RUR is shown as "100 000 - 150 000 RUR". |
| HhClient.MessageSplitsIntoLines | src/services/hh_client.py:115-148 | When no field holds a line break, the vacancy message splits back into its seven lines in order: title, blank, company, salary, location, experience, link. Missing fields show their defaults. |
| HhClient.FormatVacancyMessage | src/services/hh_client.py:115-148 | The seven lines of the message joined by line breaks. How they split back is stated by `MessageSplitsIntoLines`. |
| FilterRepo.Find | src/storage/repositories/filter_repo.py:33-38 | Finds the first row of (user, type), and finds none exactly when no such row exists. |
| FilterRepo.Remove | src/storage/repositories/filter_repo.py:59-74 | The rows left by a DELETE are exactly the table's rows that do not match, none of them matching. |
| FilterRepo.FilterRepository.constructor | src/storage/repositories/filter_repo.py:11-13 | A repository over an empty table. |
| FilterRepo.FilterRepository.GetUserFilters | src/storage/repositories/filter_repo.py:15-25 | The dictionary equals the table-order reading of the user's rows, and its keys are exactly the user's filter types. |
| FilterRepo.FilterRepository.SaveFilter | src/storage/repositories/filter_repo.py:27-57 | Updates the existing (user, type) row in place, or appends one. The user's filters become the old ones with that type set to the value. Other users are unchanged, and at most one row per (user, type) is kept. |
| FilterRepo.FilterRepository.DeleteFilter | src/storage/repositories/filter_repo.py:59-67 | Removes exactly that key from the user's filters. Other users are unchanged and uniqueness is kept. |
| FilterRepo.FilterRepository.ClearAllFilters | src/storage/repositories/filter_repo.py:69-74 | The user has no filters left. Other users are unchanged and uniqueness is kept. |
| FilterRepo.FiltersOf | src/storage/repositories/filter_repo.py:17-25 | `get_user_filters`: the user's rows read in table order into a dictionary, a later row overwriting an earlier one. Its properties are stated by the `FiltersOf…` lemmas. |
| FilterRepo.FiltersOfSnoc | src/storage/repositories/filter_repo.py:21-23 | Reading one more row sets that row's key when the row is the user's, and changes nothing otherwise. |
| FilterRepo.FiltersOfKeys | src/storage/repositories/filter_repo.py:17-25 | A filter type is in the dictionary exactly when some row of the user carries it. |
| FilterRepo.FiltersOfLaterWins | src/storage/repositories/filter_repo.py:21-23 | On a repeated type, the last row in table order decides the value. |
| FilterRepo.FiltersOfOnlyOwnRows | src/storage/repositories/filter_repo.py:17 | Another user's rows never show up in a user's filters. |
| FilterRepo.FiltersOfUpdateSame | src/storage/repositories/filter_repo.py:40-43 | Updating the only row of (user, type) sets that key of the user's filters to the new value. |
| FilterRepo.FiltersOfUpdateOther | src/storage/repositories/filter_repo.py:40-43 | Updating a row of another user leaves a user's filters unchanged. |
| FilterRepo.SavedFilters | src/storage/repositories/filter_repo.py:27-57 | When at most one row exists per key, saving (u, t, v) makes u's filters the old ones with t set to v. |
| FilterRepo.SavedReadBack | src/storage/repositories/filter_repo.py:27-57 | After a save, reading back gives the saved value, a save/get round trip. |
| FilterRepo.SavedOtherUsers | src/storage/repositories/filter_repo.py:27-57 | A save leaves every other user's filters unchanged. |
| FilterRepo.SavedUnique | src/storage/repositories/filter_repo.py:33-54 | Saving keeps at most one row per (user, type). |
| FilterRepo.SavedKeepsOtherRows | src/storage/repositories/filter_repo.py:40-54 | A save adds a row only when none matched. Every row of another user or type stays where it was. |
| FilterRepo.SavedIdempotent | src/storage/repositories/filter_repo.py:27-57 | Saving the same value twice gives the same table as saving it once. |
| FilterRepo.RemoveFilter | src/storage/repositories/filter_repo.py:59-67 | Deleting (u, t) removes exactly key t from u's filters. |
| FilterRepo.RemoveAllFilters | src/storage/repositories/filter_repo.py:69-74 | After clearing, u has no filters. |
| FilterRepo.RemoveOtherUsers | src/storage/repositories/filter_repo.py:59-74 | Deleting or clearing for u leaves every other user's filters unchanged. |
| FilterRepo.RemoveUnique | src/storage/repositories/filter_repo.py:59-74 | Deleting or clearing keeps at most one row per (user, type). |
| FilterRepo.RemoveIdempotent | src/storage/repositories/filter_repo.py:59-74 | Deleting or clearing twice is the same as once. |
| FilterHandlers.FormatFiltersText | src/bot/handlers/filters.py:21-66 | `_format_filters_text`: "not configured" for an empty dictionary or no truthy filter, otherwise the lines joined by line breaks. Its properties are stated by the lemmas below. |
| FilterHandlers.LinesInFieldOrder | src/bot/handlers/filters.py:26-64 | The summary has one line per truthy filter, in the fixed order profession, salary, experience, format, employment, city. This is an independent field-list definition of the summary. |
| FilterHandlers.LinesEmpty | src/bot/handlers/filters.py:26-64 | There are no summary lines exactly when none of the six filters is truthy. |
| FilterHandlers.NotConfiguredIff | src/bot/handlers/filters.py:21-66 | "❌ Фильтры не настроены" is shown exactly when no known filter is truthy, both for an empty dictionary and for one holding only falsy or unknown keys. |
| FilterHandlers.FirstLine | src/bot/handlers/filters.py:26-64 | The first line of a configured summary is the line of some truthy filter. |
| FilterHandlers.UnknownShownRaw | src/bot/handlers/filters.py:38-64 | A value with no display name is shown as stored, between the label and the suffix. |
| FilterHandlers.NamesFree | src/bot/handlers/filters.py:32-62 | No display name of the four tables holds a line break. |
| FilterHandlers.LineFree | src/bot/handlers/filters.py:27-64 | A summary line holds a line break only if the stored value does. |
| FilterHandlers.SummaryLines | src/bot/handlers/filters.py:21-66 | When no stored value holds a line break, splitting a configured summary at line breaks gives back its lines. |
| FilterHandlers.PrefixFamiliesDisjoint | src/bot/handlers/filters.py:135-142 | No callback starts with two of the selection, value and action prefixes. |
| FilterHandlers.RouteCallback | src/bot/handlers/filters.py:120-145 | The `if`/`elif` chain of `handle_callback`: the two back callbacks, then the selection, value and action prefixes, in that order. |
| FilterHandlers.RouteIsFamily | src/bot/handlers/filters.py:120-145 | A callback goes to the selection, value or action branch exactly when it has that branch's prefix, whatever the order of the tests. |
| FilterHandlers.RegisteredRoutes | src/bot/handlers/filters.py:352-355 | Of the callbacks the handler's pattern accepts, exactly the unknown `back_to_` ones fall through to "unknown command". |
| FilterHandlers.PendingAfter | src/bot/handlers/filters.py:160 | Only a prompt changes the pending-input map, and only the entry of the user who asked. |
| FilterHandlers.PromptingCallbacks | src/bot/handlers/filters.py:159-241 | A callback leaves a typed answer pending exactly when it is `filter_salary`, or `prof_`/`area_` data whose value is "custom". |
| FilterHandlers.CustomPrompt | src/bot/handlers/filters.py:202-246 | "prof_custom" and "area_custom" prompt for a typed profession or city. |
| FilterHandlers.SalaryPrompt | src/bot/handlers/filters.py:159-165 | "filter_salary" prompts for a typed salary. |
| FilterHandlers.ButtonValueSaved | src/bot/handlers/filters.py:195-251 | A value button whose value does not contain its prefix, and is not "custom", saves exactly that value under its filter type. |
| FilterHandlers.InnerPrefixRemoved | src/bot/handlers/filters.py:203 | `str.replace` removes the prefix everywhere, so "prof_prof_x" saves "x". |
| FilterHandlers.DigitsOf | src/bot/handlers/filters.py:300 | The kept text contains only digits and is no longer than the input. |
| FilterHandlers.DigitsOfAppend | src/bot/handlers/filters.py:300 | Digit filtering distributes over concatenation. |
| FilterHandlers.DigitsOfEmpty | src/bot/handlers/filters.py:300-301 | No digit is kept exactly when the text has no digit. |
| FilterHandlers.DigitsOfDigits | src/bot/handlers/filters.py:300 | A digit string is kept whole. |
| FilterHandlers.DigitsOfKeeps | src/bot/handlers/filters.py:300 | Every digit of the text survives, in order. |
| FilterHandlers.TextAction | src/bot/handlers/filters.py:287-327 | Without a pending input nothing happens, and a saved value is always for the pending field. |
| FilterHandlers.SalaryInput | src/bot/handlers/filters.py:298-310 | A typed salary is saved exactly when the text has a digit, and what is saved is a digit string. Otherwise the user is asked again. |
| FilterHandlers.VerbatimInput | src/bot/handlers/filters.py:312-324 | A typed profession or city is saved verbatim. |
| FilterHandlers.FilterHandler.constructor | src/bot/handlers/filters.py:18-19 | Nothing is pending at first. |
| FilterHandlers.FilterHandler.HandleCallback | src/bot/handlers/filters.py:110-145 | The action is the routed action of the data. The pending map changes only by the prompt of the user who asked. Only salary, profession and city can be pending. |
| FilterHandlers.FilterHandler.HandleFilterSelection | src/bot/handlers/filters.py:147-193 | Opens the keyboard of the chosen filter, or prompts for the salary. Only the salary button makes an input pending. |
| FilterHandlers.FilterHandler.HandleFilterValue | src/bot/handlers/filters.py:195-251 | Saves the value left after removing the prefix, or prompts for a typed profession or city on "custom". |
| FilterHandlers.FilterHandler.HandleTextInput | src/bot/handlers/filters.py:287-327 | Pops the pending entry and saves the answer: digits only for the salary, verbatim otherwise. The entry is put back only when the salary had no digit. A user with nothing pending is left alone. |
| VacancyHandlers.TextOrDefault | src/bot/handlers/vacancies.py:43-45 | The search text is never empty. |
| VacancyHandlers.ManualParams | src/bot/handlers/vacancies.py:40-45 | The text is set to the filters' text or the default, and every other key is kept. |
| VacancyHandlers.FillText | src/bot/handlers/vacancies.py:44-45 | Normalised filters carry the text as a string, so `if not params.get('text')` replaces the text exactly when it is missing or empty. |
| VacancyHandlers.NavigationKeyboard | src/bot/handlers/vacancies.py:121-151 | Three rows: navigation, actions, and "🔙 В меню" leading to `back_to_main`. |
| VacancyHandlers.NavTarget | src/bot/handlers/vacancies.py:174-180 | An index is read exactly when the data after the prefix is a digit string. |
| VacancyHandlers.NavRoundTrip | src/bot/handlers/vacancies.py:130-180 | "next_k" and "prev_k" parse back to k. |
| VacancyHandlers.PrevButtonRule | src/bot/handlers/vacancies.py:129-130 | A back button exists exactly when the index is positive, and leads to index - 1. |
| VacancyHandlers.NextButtonRule | src/bot/handlers/vacancies.py:134-135 | A forward button exists exactly when a later vacancy exists, and leads to index + 1. |
| VacancyHandlers.NavRowData | src/bot/handlers/vacancies.py:127-138 | Each navigation button is the back, page or forward button, and no prefix is mistaken for another. |
| VacancyHandlers.PageLabelPresent | src/bot/handlers/vacancies.py:132 | The "i+1/total" page button is always present. |
| VacancyHandlers.NavTargetsInRange | src/bot/handlers/vacancies.py:129-135 | From a valid position, every navigation button leads to an index within the results. |
| VacancyHandlers.ActionButtonsCarryId | src/bot/handlers/vacancies.py:141-145 | The save, hide and cover buttons carry the vacancy id, which the handler recovers after the prefix. |
| VacancyHandlers.SendResult | src/bot/handlers/vacancies.py:79-119 | `send_vacancy` keeps the stored indices in range, touches only the user's entry and keeps the stored results. On a callback update the reply is the vacancy or nothing, since the error and end texts go through `update.message` (lines 202-218). |
| VacancyHandlers.SendOutcome | src/bot/handlers/vacancies.py:82-119 | A vacancy is shown exactly when a search is stored and the index is in range, and its index is then stored. Otherwise nothing changes: a message update gets the error text when no search is stored and the end text when the index is past the end, and a callback update gets no reply. |
| VacancyHandlers.ForwardThenBack | src/bot/handlers/vacancies.py:174-180 | Forward and then back returns to the same state, and forward shows the next vacancy. |
| VacancyHandlers.NavCallback | src/bot/handlers/vacancies.py:174-180 | A navigation callback either shows a vacancy, shows nothing, or fails to parse its index. |
| VacancyHandlers.StaleNavigationSilent | src/bot/handlers/vacancies.py:82-91 | A navigation button of an old keyboard, whose index is past the stored results or whose user has no stored search, answers nothing and changes nothing. |
| VacancyHandlers.SearchResult | src/bot/handlers/vacancies.py:17-77 | A search keeps every stored index in range. On a callback update the reply is the first vacancy or nothing, since the no-filters and nothing-found texts check `update.message` (lines 32, 54). |
| VacancyHandlers.SearchOutcome | src/bot/handlers/vacancies.py:31-69 | A vacancy is shown exactly when there are filters and results. It is the first one, and the user's stored search is replaced by the results at index 0. Otherwise nothing changes: a message update is told "no filters" exactly when there are none and "nothing found" exactly when there are filters but no results, and a callback update gets no reply. |
| VacancyHandlers.StoreThenSend | src/bot/handlers/vacancies.py:59-69 | Storing fresh results at index 0 and sending the first one shows that vacancy and stores nothing further. |
| VacancyHandlers.VacancyCallback | src/bot/handlers/vacancies.py:153-200 | A callback is never answered with the error, end, no-filters or nothing-found texts, because those are sent only through `update.message`. |
| VacancyHandlers.CallbackFrame | src/bot/handlers/vacancies.py:153-200 | Only navigation and show-all callbacks change the stored searches, and every callback keeps the indices in range. |
| VacancyHandlers.ActionButtonsOnlyNotify | src/bot/handlers/vacancies.py:182-192 | The save, hide and cover buttons answer with a notice and leave the state alone. |
| VacancyHandlers.ShowAllUnregistered | src/bot/handlers/vacancies.py:236-244 | "show_all_vacancies" does not match the registered pattern as written. |
| VacancyHandlers.KeyboardDataRegistered | src/bot/handlers/vacancies.py:236-244 | Every callback of the navigation keyboard, and "show_all_vacancies", matches the corrected pattern. |
| VacancyHandlers.VacancyHandler.constructor | src/bot/handlers/vacancies.py:14-15 | No search is stored at first. |
| VacancyHandlers.VacancyHandler.SearchVacancies | src/bot/handlers/vacancies.py:17-77 | The new state and reply are those of `SearchResult`. A query is sent exactly when there are filters. It is the query of `search_vacancies` for the normalised filters with the text filled in, so its text is the normalised text or "разработчик". |
| VacancyHandlers.VacancyHandler.Fetch | src/bot/handlers/vacancies.py:40-52 | The request of a manual search is the query for the normalised filters with the text filled in: every key of the defaults and the filters, stringified, with a non-empty text. Its results follow the status rule. |
| VacancyHandlers.VacancyHandler.SearchParams | src/bot/handlers/vacancies.py:40-45 | The parameters are the normalised filters with the text set to the filters' own text when truthy and to the default otherwise; every other key is as normalised. |
| VacancyHandlers.VacancyHandler.SendVacancy | src/bot/handlers/vacancies.py:79-119 | The new state and reply are those of `SendResult`. |
| VacancyHandlers.VacancyHandler.HandleCallback | src/bot/handlers/vacancies.py:153-200 | The new state and reply are those of `VacancyCallback`, branch by branch. |
| Scheduler.Fresh | src/services/scheduler_service.py:117-123 | The new results are at most as many as the results, and each has an id not sent before. |
| Scheduler.Ids | src/services/scheduler_service.py:133-136 | Every result that has an id contributes it. |
| Scheduler.Items | src/services/scheduler_service.py:159-176 | One item message per shown vacancy. |
| Scheduler.Plan | src/services/scheduler_service.py:146-198 | A round plans at most five messages (the summary, three items, the show-all message), none for no new vacancies, and the summary first. |
| Scheduler.Deliver | src/services/scheduler_service.py:152-198 | No more messages go out than remain in the plan. |
| Scheduler.UserCheck | src/services/scheduler_service.py:86-144 | A user's check sends at most five messages and never drops a ledger entry. |
| Scheduler.ItemsShape | src/services/scheduler_service.py:159-176 | Item messages are numbered from 1 and carry the number shown. |
| Scheduler.PlanShape | src/services/scheduler_service.py:146-198 | For n new vacancies: a summary with n, then items "i of min(3, n)", then a show-all message exactly when n > 3. The show-all message comes only last. |
| Scheduler.DeliverSound | src/services/scheduler_service.py:152-198 | Only planned messages go out. An exception escapes exactly when a summary or show-all send fails. |
| Scheduler.DeliverSkipsFailedItems | src/services/scheduler_service.py:159-183 | A failing item is skipped and every later message that does not fail is still sent. |
| Scheduler.DeliverAll | src/services/scheduler_service.py:146-198 | With no failure the whole plan is sent in order. |
| Scheduler.SummaryFailure | src/services/scheduler_service.py:151-157 | When the summary send fails, nothing is sent and the exception escapes. |
| Scheduler.FreshAppend | src/services/scheduler_service.py:117-123 | The new batch keeps the search order. |
| Scheduler.FreshMembers | src/services/scheduler_service.py:117-123 | A result is in the batch exactly when it has an id not sent before. |
| Scheduler.FreshKeepsRepeats | src/services/scheduler_service.py:120-123 | The check is against earlier rounds only, so a new result repeated in one search is planned twice. |
| Scheduler.IdsMembers | src/services/scheduler_service.py:133-136 | An id is recorded exactly when some result in the batch carries it. |
| Scheduler.FreshAfterRecording | src/services/scheduler_service.py:117-139 | Once a batch's ids are recorded, the same results contain nothing new. |
| Scheduler.NothingToSend | src/services/scheduler_service.py:92-127 | With no filters, no results, or only results sent before, nothing is sent and the ledger is unchanged. |
| Scheduler.UserCheckFrame | src/services/scheduler_service.py:86-144 | A check changes only the checked user's set, and that set only grows. |
| Scheduler.UserCheckRecords | src/services/scheduler_service.py:130-139 | After a round without escaping exception, the user's set is the old one plus every new result's id, including those beyond the third. |
| Scheduler.UserCheckRaised | src/services/scheduler_service.py:130-144 | A round whose sending raised records nothing. |
| Scheduler.RecheckSendsNothing | src/services/scheduler_service.py:117-139 | Checking the same results again after a successful round sends nothing and changes nothing. |
| Scheduler.RunAll | src/services/scheduler_service.py:66-84 | A pass over the users never drops a ledger entry. |
| Scheduler.RunAllOthers | src/services/scheduler_service.py:66-84 | A user without a turn in the pass keeps its set. |
| Scheduler.RunAllGrows | src/services/scheduler_service.py:66-84 | No pass forgets an id. |
| Scheduler.SchedulerService.constructor | src/services/scheduler_service.py:20-24 | Interval 60 minutes and an empty ledger. |
| Scheduler.SchedulerService.Start | src/services/scheduler_service.py:26-46 | Sets the interval and gives every listed user an empty set, keeping the other entries. |
| Scheduler.SchedulerService.LoadProcessedVacancies | src/services/scheduler_service.py:53-62 | Every listed user gets an empty set. Other entries and the interval are unchanged. |
| Scheduler.SchedulerService.ClearUserHistory | src/services/scheduler_service.py:200-204 | Empties a known user's set, and adds no entry for an unknown user. |
| Scheduler.SchedulerService.CheckUser | src/services/scheduler_service.py:86-144 | The ledger and the messages sent are those of `UserCheck`. A query is sent exactly when the user has filters, and it carries date_from, order_by=publication_time and per_page=10. |
| Scheduler.SchedulerService.CheckAllUsers | src/services/scheduler_service.py:66-84 | The ledger is that of the users' checks in turn (`RunAll`), one user's failure not stopping the rest. |
| Scheduler.AutoSearchParams | src/services/scheduler_service.py:96-104 | The parameters are the normalised filters with date_from, order_by and per_page overridden. |
| Scheduler.AutoSearch | src/services/scheduler_service.py:96-110 | The query carries the three forced values, and the results follow the status rule. |
| Scheduler.ForcedQuery | src/services/scheduler_service.py:101-110 | Whatever else the search sends, its query carries the three forced values as the strings the API expects. |
| Scheduler.SearchQueryForced | src/services/scheduler_service.py:101-104 | The forced values survive the merge with the defaults and serialise to the date, "publication_time" and "10". |
| Scheduler.NewVacancies | src/services/scheduler_service.py:117-123 | The loop's batch is the reference `Fresh` of the results. |
| Scheduler.RecordIds | src/services/scheduler_service.py:133-139 | The loop's set is the old set plus the batch's ids. |
| Strings.ParseInt | src/services/filter_service.py:42-48 | `int()` succeeds exactly on a digit string, with a non-negative value. |
| Strings.ParseIntOfNatToString | src/services/filter_service.py:44 | `int(str(n)) == n` for a non-negative n. |
| Strings.Strip | src/services/filter_service.py:75 | `str.strip()` leaves no leading and no trailing whitespace. |
| Strings.StripLeftCut | src/services/filter_service.py:75 | What the front strip removes is all whitespace, and the rest is a suffix of the text. |
| Strings.StripRightCut | src/services/filter_service.py:75 | What the back strip removes is all whitespace, and the rest is a prefix of the text. |
| Strings.StripShape | src/services/filter_service.py:75 | The stripped text is a slice of the original with only whitespace cut on either side, so no inner character is removed. |
| Strings.RemoveAll | src/bot/handlers/filters.py:203-239 | `str.replace(p, "")` never lengthens the text. |
| Keyboards.FiltersMainKeyboard | src/bot/keyboards/filters.py:4-18 | Six one-button rows, one per filter, then a row of two (save and clear). The current filters are not read. |
| Keyboards.ProfessionKeyboard | src/bot/keyboards/filters.py:20-32 | One button per row, the last row going back to the filter menu. |
| Keyboards.ExperienceKeyboard | src/bot/keyboards/filters.py:34-43 | One button per row, the last row going back to the filter menu. |
| Keyboards.ScheduleKeyboard | src/bot/keyboards/filters.py:45-54 | One button per row, the last row going back to the filter menu. |
| Keyboards.EmploymentKeyboard | src/bot/keyboards/filters.py:56-65 | One button per row, the last row going back to the filter menu. |
| Keyboards.AreaKeyboard | src/bot/keyboards/filters.py:67-78 | One button per row, the last row going back to the filter menu. |
| Consistency.ValueButton | src/bot/handlers/filters.py:195-251 | A value button saves its value, and removing the prefix gives that value back. |
| Consistency.BackButton | src/bot/keyboards/filters.py:30 | The back button leads to the filter menu. |
| Consistency.ValueKeyboard | src/bot/keyboards/filters.py:20-78 | In a keyboard of value buttons, each value button saves its value, the "custom" button prompts, and every button is handled. |
| Consistency.BackRows | src/bot/keyboards/filters.py:20-78 | Every value keyboard ends with the back row. |
| Consistency.SelectionRoute | src/bot/handlers/filters.py:135-136 | A `filter_` button reaches `handle_filter_selection` and matches the pattern. |
| Consistency.ActionRoute | src/bot/handlers/filters.py:141-142 | A `filters_` button reaches `handle_filter_actions` and matches the pattern. |
| Consistency.MainMenuData | src/bot/keyboards/filters.py:4-18 | The main filter menu holds six single buttons and a row of two, with the listed callback data. |
| Consistency.MenuRoutes | src/bot/handlers/filters.py:110-285 | In that menu, five buttons open their filter's keyboard, the salary button prompts, and the last row saves or clears. Every button is handled. |
| Consistency.SelectionOpens | src/bot/handlers/filters.py:147-285 | Each selection or action callback leads to its own action. |
| Consistency.ExperienceButtons | src/bot/keyboards/filters.py:34-43 | Each experience button saves one of the four codes the search passes on, which has a display name. |
| Consistency.ScheduleButtons | src/bot/keyboards/filters.py:45-54 | Each format button saves a format with an HH schedule code and a display name. |
| Consistency.EmploymentButtons | src/bot/keyboards/filters.py:56-65 | Each employment button saves a type with a display name. |
| Consistency.ProfessionButtons | src/bot/keyboards/filters.py:20-32 | The six professions are saved as non-empty texts, and "Ввести свою" prompts for one. |
| Consistency.AreaButtons | src/bot/keyboards/filters.py:67-78 | Each city button saves a code with a display name, and "Ввести свой" prompts for a city. |
| Consistency.AreaCodesSearched | src/services/filter_service.py:63-71 | Every known area code is searched as an HH area id, and "remote" as remote work. |
| Consistency.TypedSalarySearched | src/bot/handlers/filters.py:298-308 | A typed salary that is saved (modelled with ASCII digits only) always parses, so the search asks for salaries from its digits, with salary only. |
| Consistency.ShowAllButtonUnrouted | src/services/scheduler_service.py:188-190 | The show-all button matches neither the filter handler's pattern nor the vacancy handler's pattern as written. It matches the corrected one. |

## Left out

- The network, Telegram and the database: HTTP requests, message sending and editing, sessions and commits, and the row ids and timestamps of `user_filters` are not modelled. A Telegram send that raises is an input: the set of failing plan positions.
- Timers: APScheduler, `asyncio.sleep`, `create_task` for the first check, `stop` and `get_scheduler_status` are left out. The scheduler pass is a method over a given list of users.
- The clock: `datetime.now() - timedelta(hours=24)` formatted as a date is the `dateFrom` string parameter.
- `chat_id`/`telegram_id`: notifications are not addressed; only the ledger key `user.id` is modelled.
- Floating point: `float` parameters of `_prepare_params` are not modelled, since no caller passes one.
- Strings.Strip: `IsSpace` is the ASCII whitespace set (space, tab, line feed, vertical tab, form feed, carriage return). Python's `str.strip()` also removes \x1c-\x1f, \x85, \xa0 and the Unicode spaces, so a city typed as "Казань\xa0" keeps its no-break space in the model's search text but not in the source's.
- Strings.ParseInt: only ASCII digit strings parse. Python's `int()` also accepts signs, blanks, underscores and non-ASCII digits, and `str.isdigit` accepts Unicode digits; the model treats those as errors or non-digits.
- VacancyHandlers.NavTarget: negative indices from a hand-made "prev_-1" are not modelled: they do not parse here, whereas Python's `int()` would accept them and index from the end.
- The exception paths of the handlers, where a database error is reported to the user, are not modelled, and neither are the exceptions of `get_user_filters` and `to_hh_params` in the scheduler outside its `try`.
- `show_filters_menu`, the Markdown texts of prompts and confirmations, and the main keyboard are represented by `Action`/`Reply` values rather than by their texts.
- FilterRepo.FilterRepository.SaveFilter: requires at most one row per (user, type). The source's `scalar_one_or_none` raises when two matching rows exist, and that case is not modelled.
- HhClient.Vacancy: a nested `employer`, `area` or `experience` object that is present but null makes the source raise; the model only distinguishes present from missing. A JSON null is treated as missing in `name`, `alternate_url`, the salary's `currency`, and the nested `name` of `employer`, `area` and `experience`. So the model prints the default ("Без названия", an empty link, "RUR", "Не указано", "Не указан") where the source's `dict.get` returns None and prints "None" (hh_client.py:117, 118, 120, 121, 122, 129).
- HhClient.SalaryText: a `from`/`to` that is not an integer (a float or a string in the JSON) is not modelled.
- The order in which the bot registers the filter and vacancy handlers, which both accept `back_to_main`, is not modelled; each handler is modelled on its own.
- The show-all callback: it is modelled as delivered to the vacancy handler's branch, which runs an ordinary search.
- VacancyHandlers.VacancyHandler.SearchVacancies: the pop-up notice "🔍 Запускаю поиск всех вакансий..." shown before the search is not part of the reply.
- The "Ищу вакансии..." progress message (vacancies.py:22-26) and the exception reply of vacancies.py:71-77 are not part of the reply.
- VacancyHandlers.VacancyHandler.HandleCallback: `query.answer()` is called without text at vacancies.py:156 and then again with the notice text at lines 184, 188, 192, 196 and 200. The model shows the notice. Whether Telegram displays a second answer to the same query is outside the model.

## Findings

| source | as written | input that shows it | evidently intended | confidence | as-written member | corrected member |
|---|---|---|---|---|---|---|
| src/bot/handlers/vacancies.py:242 | The vacancy callback pattern `^(next_\|prev_\|save_\|hide_\|cover_\|back_to_main\|page_info)` does not include `show_all_vacancies`. The filter handler's pattern does not match it either. So the button the scheduler sends (scheduler_service.py:189) reaches no handler, and the `show_all_vacancies` branch at vacancies.py:194-197 is dead. | pressing "🔍 Показать все вакансии" (callback data "show_all_vacancies") | the pattern also accepts `show_all_vacancies`, so the branch runs a full search | not executed | VacancyHandlers.ShowAllUnregistered | VacancyHandlers.KeyboardDataRegistered |

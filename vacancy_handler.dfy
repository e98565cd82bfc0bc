/**
 * VacancyHandler (src/bot/handlers/vacancies.py): a search on the user's
 * filters is stored per user together with the index of the vacancy on
 * screen, and the navigation buttons move that index.
 */
module VacancyHandlers {
  import opened Wrappers
  import opened Strings
  import opened Values
  import opened Keyboards
  import opened FilterService
  import opened HhClient

  /** `user_searches[user_id]`: the stored results and the index on screen. */
  datatype Search = Search(vacancies: seq<Vacancy>, currentIndex: nat)

  type Searches = map<int, Search>

  /**
   * Which part of the update is filled in: `update.message` for a command or a
   * menu button, `update.callback_query` for an inline button.  The error and
   * end-of-list texts go through `update.message`, so a callback never gets them.
   */
  datatype Origin = FromMessage | FromCallback

  /** What the user is shown. */
  datatype Reply =
    | NoFiltersReply                                 // "no search filters configured"
    | NothingFoundReply                              // "nothing found for your filters"
    | ShowVacancy(message: string, keyboard: Keyboard)
    | NoSearchReply                                  // `_send_error_message`
    | EndReply                                       // `_send_end_of_search_message`
    | MainMenuReply
    | Notice(text: string)                           // a `query.answer` pop-up
    | BadCallback                                    // `int()` raises on the callback's index
    | NoReply

  /** A text sent with `update.message.reply_text`: it only reaches the user when the update came as a message. */
  function ByMessage(origin: Origin, r: Reply): Reply
  {
    if origin.FromMessage? then r else NoReply
  }

  /** Every stored index points at a stored vacancy. */
  predicate InBounds(searches: Searches) {
    forall u :: u in searches ==> searches[u].currentIndex < |searches[u].vacancies|
  }

  /** The text used when the filters give none. */
  const DefaultText: string := "разработчик"

  /** The search text: the filters' text when it is a non-empty string, the default otherwise. */
  function TextOrDefault(params: map<Key, Value>): (r: string)
    ensures r != ""
  {
    if Text in params && params[Text].Str? && params[Text].s != "" then params[Text].s else DefaultText
  }

  /** The parameters a manual search sends: the normalised filters with the search text filled in. */
  function ManualParams(p: map<Key, Value>): (r: map<Key, Value>)
    ensures Text in r && r[Text] == Str(TextOrDefault(p))
    ensures forall k :: k != Text ==> (k in r <==> k in p) && (k in p ==> r[k] == p[k])
  {
    p[Text := Str(TextOrDefault(p))]
  }

  /** Normalised filters carry the text as a string, so filling it in changes it only when it is missing or empty. */
  lemma FillText(f: map<string, string>, p: map<Key, Value>)
    requires Normalizes(f, p)
    ensures Text in p && Truthful(p[Text]) ==> ManualParams(p) == p
    ensures !(Text in p && Truthful(p[Text])) ==> ManualParams(p) == p[Text := Str(DefaultText)]
  {
    assert TextRule(f, p);
    assert Text in p ==> p[Text].Str? by {
      match AreaRuleOf(f)
      case AreaName(_) =>
      case _ =>
    }
  }

  // ---- _create_navigation_keyboard ----

  /** `str(vacancy_id)`, which is "None" when the vacancy has no id. */
  function IdText(id: Option<string>): string
  {
    match id
    case Some(s) => s
    case None => "None"
  }

  function PrevButtons(current: nat): seq<Button>
  {
    if current > 0 then [Button("◀️ Назад", "prev_" + NatToString(current - 1))] else []
  }

  function PageButton(current: nat, total: nat): Button
  {
    Button(NatToString(current + 1) + "/" + NatToString(total), "page_info")
  }

  function NextButtons(current: nat, total: nat): seq<Button>
  {
    if current < total - 1 then [Button("Вперед ▶️", "next_" + NatToString(current + 1))] else []
  }

  function NavRow(current: nat, total: nat): seq<Button>
  {
    PrevButtons(current) + [PageButton(current, total)] + NextButtons(current, total)
  }

  function ActionRow(id: Option<string>): seq<Button>
  {
    [ Button("💾 Сохранить", "save_" + IdText(id)),
      Button("👎 Скрыть", "hide_" + IdText(id)),
      Button("📝 Письмо", "cover_" + IdText(id)) ]
  }

  /** The navigation row (never empty: the page button is always there), the actions, and the way back. */
  function NavigationKeyboard(current: nat, total: nat, id: Option<string>): (kb: Keyboard)
    ensures |kb| == 3 && kb[2] == [Button("🔙 В меню", "back_to_main")]
  {
    [NavRow(current, total), ActionRow(id), [Button("🔙 В меню", "back_to_main")]]
  }

  /** `int(data.replace(prefix, ""))`; None is the ValueError. */
  function NavTarget(data: string, prefix: string): (r: Option<nat>)
    requires |prefix| > 0
    ensures r.Some? <==> IsDigitString(RemoveAll(data, prefix))
  {
    var parsed := ParseInt(RemoveAll(data, prefix));
    if parsed.Some? then Some(parsed.value as nat) else None
  }

  lemma NoLetterDigits(k: nat, prefix: string)
    requires |prefix| > 0 && !IsDigit(prefix[0])
    ensures !Occurs(NatToString(k), prefix)
  {
    var s := NatToString(k);
    AbsentChar(s, prefix, 0);
  }

  /** "next_k" and "prev_k" parse back to k. */
  lemma NavRoundTrip(k: nat)
    ensures NavTarget("next_" + NatToString(k), "next_") == Some(k)
    ensures NavTarget("prev_" + NatToString(k), "prev_") == Some(k)
  {
    NoLetterDigits(k, "next_");
    NoLetterDigits(k, "prev_");
    RemoveAllPrefixOnce("next_", NatToString(k));
    RemoveAllPrefixOnce("prev_", NatToString(k));
    ParseIntOfNatToString(k);
  }

  /** A "back" button exists exactly when current > 0, and it leads to current - 1. */
  lemma PrevButtonRule(current: nat, total: nat)
    ensures (exists b :: b in NavRow(current, total) && StartsWith(b.data, "prev_")) <==> current > 0
    ensures forall b :: b in NavRow(current, total) && StartsWith(b.data, "prev_") ==>
      current > 0 && NavTarget(b.data, "prev_") == Some(current - 1)
  {
    NavRowData(current, total);
    if current > 0 {
      NavRoundTrip(current - 1);
      StartsWithConcat("prev_", NatToString(current - 1));
      assert PrevButtons(current)[0] in NavRow(current, total);
    }
  }

  /** A "forward" button exists exactly when current < total - 1, and it leads to current + 1. */
  lemma NextButtonRule(current: nat, total: nat)
    ensures (exists b :: b in NavRow(current, total) && StartsWith(b.data, "next_")) <==> current + 1 < total
    ensures forall b :: b in NavRow(current, total) && StartsWith(b.data, "next_") ==>
      current + 1 < total && NavTarget(b.data, "next_") == Some(current + 1)
  {
    NavRowData(current, total);
    if current + 1 < total {
      NavRoundTrip(current + 1);
      StartsWithConcat("next_", NatToString(current + 1));
      var row := NavRow(current, total);
      assert row[|row| - 1] in row;
    }
  }

  /** Which prefix each navigation button's data has. */
  lemma NavRowData(current: nat, total: nat)
    ensures forall b :: b in NavRow(current, total) ==>
      (b in PrevButtons(current) && !StartsWith(b.data, "next_")) ||
      (b == PageButton(current, total) && !StartsWith(b.data, "next_") && !StartsWith(b.data, "prev_")) ||
      (b in NextButtons(current, total) && !StartsWith(b.data, "prev_"))
  {
    if current > 0 {
      var d := "prev_" + NatToString(current - 1);
      NotStartsWithAt(d, "next_", 0);
    }
    if current + 1 < total {
      var d := "next_" + NatToString(current + 1);
      NotStartsWithAt(d, "prev_", 0);
    }
    NotStartsWithAt("page_info", "next_", 0);
    NotStartsWithAt("page_info", "prev_", 1);
  }

  /** The page label "current+1/total" is always on the navigation row. */
  lemma PageLabelPresent(current: nat, total: nat)
    ensures Button(NatToString(current + 1) + "/" + NatToString(total), "page_info") in NavRow(current, total)
  {
    assert NavRow(current, total)[|PrevButtons(current)|] == PageButton(current, total);
  }

  /** On screen position current of total, every navigation button leads inside [0, total). */
  lemma NavTargetsInRange(current: nat, total: nat, b: Button)
    requires current < total && b in NavRow(current, total)
    ensures StartsWith(b.data, "next_") ==> exists k: nat :: NavTarget(b.data, "next_") == Some(k) && k < total
    ensures StartsWith(b.data, "prev_") ==> exists k: nat :: NavTarget(b.data, "prev_") == Some(k) && k < total
  {
    NextButtonRule(current, total);
    PrevButtonRule(current, total);
  }

  /** The action buttons carry the vacancy id after save_, hide_ and cover_. */
  lemma ActionButtonsCarryId(id: string)
    requires !Occurs(id, "save_") && !Occurs(id, "hide_") && !Occurs(id, "cover_")
    ensures var row := ActionRow(Some(id));
      && RemoveAll(row[0].data, "save_") == id
      && RemoveAll(row[1].data, "hide_") == id
      && RemoveAll(row[2].data, "cover_") == id
  {
    RemoveAllPrefixOnce("save_", id);
    RemoveAllPrefixOnce("hide_", id);
    RemoveAllPrefixOnce("cover_", id);
  }

  // ---- send_vacancy ----

  /** The vacancy at `index` with its navigation keyboard. */
  function Shown(vs: seq<Vacancy>, index: nat): Reply
    requires index < |vs|
  {
    ShowVacancy(FormatVacancyMessage(vs[index]), NavigationKeyboard(index, |vs|, vs[index].id))
  }

  /**
   * `send_vacancy(user, index)` as a new state and a reply.  The vacancy is
   * edited into the callback's message or sent as a new one; both are `ShowVacancy`.
   */
  function SendResult(searches: Searches, origin: Origin, user: int, index: nat): (r: (Searches, Reply))
    ensures InBounds(searches) ==> InBounds(r.0)
    ensures origin.FromCallback? ==> r.1.ShowVacancy? || r.1 == NoReply
    ensures r.0.Keys == searches.Keys
    ensures forall u :: u in searches && u != user ==> r.0[u] == searches[u]
    ensures user in searches ==> r.0[user].vacancies == searches[user].vacancies
  {
    if user !in searches then (searches, ByMessage(origin, NoSearchReply))
    else if index >= |searches[user].vacancies| then (searches, ByMessage(origin, EndReply))
    else (searches[user := searches[user].(currentIndex := index)], Shown(searches[user].vacancies, index))
  }

  /**
   * A stored search shows the requested vacancy exactly when the index is in
   * range; otherwise nothing changes, a message is told why and a callback is
   * told nothing.
   */
  lemma SendOutcome(searches: Searches, origin: Origin, user: int, index: nat)
    ensures var r := SendResult(searches, origin, user, index);
      && (r.1.ShowVacancy? <==> user in searches && index < |searches[user].vacancies|)
      && (!r.1.ShowVacancy? ==> r.0 == searches)
      && (r.1.ShowVacancy? ==> r.0[user].currentIndex == index && r.1 == Shown(searches[user].vacancies, index))
      && (origin.FromMessage? ==> (r.1 == NoSearchReply <==> user !in searches))
      && (origin.FromMessage? ==> (r.1 == EndReply <==> user in searches && index >= |searches[user].vacancies|))
      && (origin.FromCallback? && !r.1.ShowVacancy? ==> r.1 == NoReply)
  {
  }

  /** A next_ or prev_ callback: parse the index, then `send_vacancy`. */
  function NavCallback(searches: Searches, user: int, data: string): (r: (Searches, Reply))
    ensures r.1.ShowVacancy? || r.1 == NoReply || r.1 == BadCallback
  {
    var prefix := if StartsWith(data, "next_") then "next_" else "prev_";
    match NavTarget(data, prefix)
    case None => (searches, BadCallback)
    case Some(k) => SendResult(searches, FromCallback, user, k)
  }

  /** A navigation button of an old keyboard (the search was replaced by a shorter one, or never stored) answers nothing and changes nothing. */
  lemma StaleNavigationSilent(searches: Searches, user: int, k: nat)
    requires user !in searches || k >= |searches[user].vacancies|
    ensures NavCallback(searches, user, "next_" + NatToString(k)) == (searches, NoReply)
    ensures NavCallback(searches, user, "prev_" + NatToString(k)) == (searches, NoReply)
  {
    NavRoundTrip(k);
    StartsWithConcat("next_", NatToString(k));
    NotStartsWithAt("prev_" + NatToString(k), "next_", 0);
  }

  /** Going forward and then back returns to the same state. */
  lemma ForwardThenBack(searches: Searches, user: int)
    requires InBounds(searches) && user in searches
    requires searches[user].currentIndex + 1 < |searches[user].vacancies|
    ensures var c := searches[user].currentIndex;
      var after := NavCallback(searches, user, "next_" + NatToString(c + 1));
      && after.1 == Shown(searches[user].vacancies, c + 1)
      && NavCallback(after.0, user, "prev_" + NatToString(c)).0 == searches
  {
    var c := searches[user].currentIndex;
    NavRoundTrip(c + 1);
    NavRoundTrip(c);
    StartsWithConcat("next_", NatToString(c + 1));
    var d := "prev_" + NatToString(c);
    NotStartsWithAt(d, "next_", 0);
    var s1 := NavCallback(searches, user, "next_" + NatToString(c + 1)).0;
    assert s1 == searches[user := Search(searches[user].vacancies, c + 1)];
    assert s1[user := Search(searches[user].vacancies, c)] == searches;
  }

  // ---- search_vacancies and handle_callback ----

  /** `search_vacancies` as a new state and a reply, once the filters are read and the request is answered. */
  function SearchResult(searches: Searches, origin: Origin, user: int, filters: map<string, string>, response: Response): (r: (Searches, Reply))
    ensures InBounds(searches) ==> InBounds(r.0)
    ensures origin.FromCallback? ==> r.1.ShowVacancy? || r.1 == NoReply
  {
    if |filters| == 0 then (searches, ByMessage(origin, NoFiltersReply))
    else
      var items := ResponseItems(response);
      if items == [] then (searches, ByMessage(origin, NothingFoundReply))
      else (searches[user := Search(items, 0)], Shown(items, 0))
  }

  /** Storing fresh results and sending the first one shows it and stores nothing more. */
  lemma StoreThenSend(searches: Searches, origin: Origin, user: int, items: seq<Vacancy>)
    requires items != []
    ensures var stored := searches[user := Search(items, 0)];
      SendResult(stored, origin, user, 0) == (stored, Shown(items, 0))
  {
    var stored := searches[user := Search(items, 0)];
    assert stored[user := stored[user].(currentIndex := 0)] == stored;
  }

  /**
   * A search shows a vacancy exactly when there are filters and results; it then
   * replaces the user's stored search.  Otherwise a message is told why and a
   * callback is told nothing.
   */
  lemma SearchOutcome(searches: Searches, origin: Origin, user: int, filters: map<string, string>, response: Response)
    ensures var r := SearchResult(searches, origin, user, filters, response);
      && (r.1.ShowVacancy? <==> |filters| != 0 && ResponseItems(response) != [])
      && (!r.1.ShowVacancy? ==> r.0 == searches)
      && (r.1.ShowVacancy? ==>
            && r.0 == searches[user := Search(ResponseItems(response), 0)]
            && r.1 == Shown(ResponseItems(response), 0))
      && (origin.FromMessage? ==> (r.1 == NoFiltersReply <==> |filters| == 0))
      && (origin.FromMessage? ==> (r.1 == NothingFoundReply <==> |filters| != 0 && ResponseItems(response) == []))
      && (origin.FromCallback? && !r.1.ShowVacancy? ==> r.1 == NoReply)
  {
  }

  /**
   * What `handle_callback` does with one callback: the state after it and the
   * reply, which is never one of the texts that go through `update.message`.
   */
  function VacancyCallback(searches: Searches, user: int, data: string, filters: map<string, string>, response: Response): (r: (Searches, Reply))
    ensures !r.1.NoSearchReply? && !r.1.EndReply? && !r.1.NoFiltersReply? && !r.1.NothingFoundReply?
  {
    if data == "back_to_main" then (searches, MainMenuReply)
    else if StartsWith(data, "next_") || StartsWith(data, "prev_") then NavCallback(searches, user, data)
    else if StartsWith(data, "save_") then (searches, Notice("💾 Вакансия сохранена в избранное!"))
    else if StartsWith(data, "hide_") then (searches, Notice("👎 Больше не показывать эту вакансию"))
    else if StartsWith(data, "cover_") then (searches, Notice("📝 Функция в разработке"))
    else if data == "show_all_vacancies" then SearchResult(searches, FromCallback, user, filters, response)
    else if data == "page_info" then (searches, Notice("Текущая страница"))
    else (searches, NoReply)
  }

  /** Only the navigation and show-all callbacks change the stored searches, and every callback keeps the indices in range. */
  lemma CallbackFrame(searches: Searches, user: int, data: string, filters: map<string, string>, response: Response)
    ensures var r := VacancyCallback(searches, user, data, filters, response);
      && (InBounds(searches) ==> InBounds(r.0))
      && (!StartsWith(data, "next_") && !StartsWith(data, "prev_") && data != "show_all_vacancies" ==> r.0 == searches)
  {
  }

  /** The save, hide and cover buttons only answer with a notice; the stored search stays as it is. */
  lemma ActionButtonsOnlyNotify(searches: Searches, user: int, id: Option<string>, filters: map<string, string>, response: Response)
    ensures var row := ActionRow(id);
      forall i :: 0 <= i < 3 ==>
        var r := VacancyCallback(searches, user, row[i].data, filters, response);
        r.0 == searches && r.1.Notice?
  {
    var row := ActionRow(id);
    var t := IdText(id);
    StartsWithConcat("save_", t);
    StartsWithConcat("hide_", t);
    StartsWithConcat("cover_", t);
    NotStartsWithAt(row[0].data, "next_", 0);
    NotStartsWithAt(row[0].data, "prev_", 0);
    NotStartsWithAt(row[1].data, "next_", 0);
    NotStartsWithAt(row[1].data, "prev_", 0);
    NotStartsWithAt(row[1].data, "save_", 0);
    NotStartsWithAt(row[2].data, "next_", 0);
    NotStartsWithAt(row[2].data, "prev_", 0);
    NotStartsWithAt(row[2].data, "save_", 0);
    NotStartsWithAt(row[2].data, "hide_", 0);
  }

  // ---- handler registration ----

  /** The pattern the vacancy callbacks are registered with, as written. */
  predicate RegisteredAsWritten(data: string) {
    || StartsWith(data, "next_") || StartsWith(data, "prev_") || StartsWith(data, "save_")
    || StartsWith(data, "hide_") || StartsWith(data, "cover_") || StartsWith(data, "back_to_main")
    || StartsWith(data, "page_info")
  }

  /** The same pattern with the show-all callback that `handle_callback` has a branch for. */
  predicate Registered(data: string) {
    RegisteredAsWritten(data) || StartsWith(data, "show_all_vacancies")
  }

  /** The show-all callback does not match the pattern as written, so its branch is never reached. */
  lemma ShowAllUnregistered()
    ensures !RegisteredAsWritten("show_all_vacancies")
  {
    var d := "show_all_vacancies";
    NotStartsWithAt(d, "next_", 0);
    NotStartsWithAt(d, "prev_", 0);
    NotStartsWithAt(d, "hide_", 0);
    NotStartsWithAt(d, "cover_", 0);
    NotStartsWithAt(d, "back_to_main", 0);
    NotStartsWithAt(d, "page_info", 0);
    NotStartsWithAt(d, "save_", 1);
  }

  /** Every callback this handler's keyboards emit matches the corrected pattern, and so does show-all. */
  lemma KeyboardDataRegistered(current: nat, total: nat, id: Option<string>)
    ensures forall row :: row in NavigationKeyboard(current, total, id) ==>
      forall b :: b in row ==> Registered(b.data)
    ensures Registered("show_all_vacancies")
  {
    NavRowData(current, total);
    StartsWithConcat("prev_", NatToString(if current > 0 then current - 1 else 0));
    StartsWithConcat("next_", NatToString(current + 1));
    StartsWithConcat("save_", IdText(id));
    StartsWithConcat("hide_", IdText(id));
    StartsWithConcat("cover_", IdText(id));
    StartsWithConcat("page_info", "");
    StartsWithConcat("back_to_main", "");
    StartsWithConcat("show_all_vacancies", "");
  }

  class VacancyHandler {
    /** `user_searches`. */
    var searches: Searches

    predicate Valid()
      reads this
    {
      InBounds(searches)
    }

    constructor ()
      ensures searches == map[] && Valid()
    {
      searches := map[];
    }

    /**
     * `search_vacancies`: with the user's stored filters and the outcome of the
     * HH request, returns the reply and the query that was sent (None when no
     * search is made).
     */
    method SearchVacancies(origin: Origin, userId: int, filters: map<string, string>, response: Response)
      returns (reply: Reply, sent: Option<map<Key, string>>)
      requires Valid()
      modifies this
      ensures Valid()
      ensures (searches, reply) == SearchResult(old(searches), origin, userId, filters, response)
      ensures sent.None? <==> |filters| == 0
      ensures sent.Some? ==> Text in sent.value && sent.value[Text] != ""
      ensures sent.Some? ==> forall p: map<Key, Value> :: Normalizes(filters, p) ==> sent.value[Text] == TextOrDefault(p)
      ensures sent.Some? ==> forall p: map<Key, Value> :: Normalizes(filters, p) ==> QueryFor(ManualParams(p), sent.value)
    {
      if |filters| == 0 {
        return ByMessage(origin, NoFiltersReply), None;
      }
      var query, items := Fetch(filters, response);
      sent := Some(query);
      if items == [] {
        reply := ByMessage(origin, NothingFoundReply);
        return;
      }
      StoreThenSend(searches, origin, userId, items);
      searches := searches[userId := Search(items, 0)];
      reply := SendVacancy(origin, userId, 0);
    }

    /**
     * The HH request of a manual search: the query is the one for the normalised
     * filters with the search text filled in, and the results follow the status rule.
     */
    method Fetch(filters: map<string, string>, response: Response) returns (query: map<Key, string>, items: seq<Vacancy>)
      ensures Text in query && query[Text] != ""
      ensures forall p: map<Key, Value> :: Normalizes(filters, p) ==> query[Text] == TextOrDefault(p)
      ensures forall p: map<Key, Value> :: Normalizes(filters, p) ==> QueryFor(ManualParams(p), query)
      ensures items == ResponseItems(response)
    {
      var params := SearchParams(filters);
      query, items := HhClient.SearchVacancies(params, response);
      assert QueryFor(params, query);
    }

    /** The filters made into search parameters, with the default text when they give none. */
    method SearchParams(filters: map<string, string>) returns (params: map<Key, Value>)
      ensures Text in params && params[Text].Str? && params[Text].s != ""
      ensures forall p: map<Key, Value> :: Normalizes(filters, p) ==> params == ManualParams(p)
    {
      var normalized := ToHhParams(filters);
      params := normalized;
      if !(Text in params && Truthful(params[Text])) {
        params := params[Text := Str(DefaultText)];
      }
      FillText(filters, normalized);
      forall p: map<Key, Value> | Normalizes(filters, p) ensures params == ManualParams(p) {
        NormalizesUnique(filters, normalized, p);
      }
    }

    /** `send_vacancy`. */
    method SendVacancy(origin: Origin, userId: int, index: nat) returns (reply: Reply)
      requires Valid()
      modifies this
      ensures Valid()
      ensures (searches, reply) == SendResult(old(searches), origin, userId, index)
    {
      if userId !in searches {
        return ByMessage(origin, NoSearchReply);
      }
      var search := searches[userId];
      if index >= |search.vacancies| {
        return ByMessage(origin, EndReply);
      }
      var vacancy := search.vacancies[index];
      var message := FormatVacancyMessage(vacancy);
      var keyboard := NavigationKeyboard(index, |search.vacancies|, vacancy.id);
      reply := ShowVacancy(message, keyboard);
      searches := searches[userId := search.(currentIndex := index)];
    }

    /**
     * `handle_callback`.  The filters and the response are those the show-all
     * branch would search with; only the navigation and show-all branches
     * change the stored searches.
     */
    method HandleCallback(userId: int, data: string, filters: map<string, string>, response: Response)
      returns (reply: Reply)
      requires Valid()
      modifies this
      ensures Valid()
      ensures (searches, reply) == VacancyCallback(old(searches), userId, data, filters, response)
    {
      if data == "back_to_main" {
        reply := MainMenuReply;
      } else if StartsWith(data, "next_") || StartsWith(data, "prev_") {
        var prefix := if StartsWith(data, "next_") then "next_" else "prev_";
        var target := NavTarget(data, prefix);
        if target.None? {
          reply := BadCallback;
        } else {
          reply := SendVacancy(FromCallback, userId, target.value);
        }
      } else if StartsWith(data, "save_") {
        reply := Notice("💾 Вакансия сохранена в избранное!");
      } else if StartsWith(data, "hide_") {
        reply := Notice("👎 Больше не показывать эту вакансию");
      } else if StartsWith(data, "cover_") {
        reply := Notice("📝 Функция в разработке");
      } else if data == "show_all_vacancies" {
        var sent;
        reply, sent := SearchVacancies(FromCallback, userId, filters, response);
      } else if data == "page_info" {
        reply := Notice("Текущая страница");
      } else {
        reply := NoReply;
      }
    }
  }
}

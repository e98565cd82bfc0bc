/**
 * SchedulerService (src/services/scheduler_service.py): the periodic search for
 * new vacancies.  The service keeps, per user, the ids of the vacancies it has
 * already sent; a check for one user searches with the user's filters, keeps
 * the results it has not sent yet, sends a plan of notification messages, and
 * only when sending went through records the ids it sent.
 *
 * The timer, the pauses between messages and users, the database and the
 * Telegram client are not modelled: the search outcome, the date of the search
 * window and the positions of the messages whose sending raises are inputs.
 */
module Scheduler {
  import opened Wrappers
  import opened Strings
  import opened Values
  import opened Keyboards
  import opened FilterService
  import opened HhClient

  type Ledger = map<int, set<string>>

  /** `vacancy.get('id')` is truthy. */
  predicate HasId(v: Vacancy) {
    v.id.Some? && v.id.value != ""
  }

  /** `processed_vacancies.get(user, set())`. */
  function Seen(ledger: Ledger, user: int): set<string>
  {
    if user in ledger then ledger[user] else {}
  }

  /** A result is new when it has an id that is not among the ids already sent. */
  predicate IsNew(v: Vacancy, seen: set<string>) {
    HasId(v) && v.id.value !in seen
  }

  /** `new_vacancies`: the new results, in the order of the search. */
  function Fresh(vs: seq<Vacancy>, seen: set<string>): (r: seq<Vacancy>)
    ensures |r| <= |vs|
    ensures forall i :: 0 <= i < |r| ==> IsNew(r[i], seen)
  {
    if vs == [] then []
    else Fresh(vs[..|vs| - 1], seen) + (if IsNew(vs[|vs| - 1], seen) then [vs[|vs| - 1]] else [])
  }

  /** The ids of the results that have one. */
  function Ids(vs: seq<Vacancy>): (r: set<string>)
    ensures forall i :: 0 <= i < |vs| && HasId(vs[i]) ==> vs[i].id.value in r
  {
    if vs == [] then {}
    else Ids(vs[..|vs| - 1]) + (if HasId(vs[|vs| - 1]) then {vs[|vs| - 1].id.value} else {})
  }

  // ---- the notification plan ----

  /** One message of a notification round. */
  datatype Message =
    | Summary(count: nat)                          // how many new vacancies were found
    | Item(position: nat, shown: nat, vacancy: Vacancy)  // vacancy `position` of `shown`
    | ShowAll(count: nat)                          // the total, with the show-all button

  const ShowAllButton: Button := Button("🔍 Показать все вакансии", "show_all_vacancies")

  function MessageText(m: Message): string
  {
    match m
    case Summary(n) => "🔔 *Найдено " + NatToString(n) + " новых вакансий!*\n\nВот самые свежие из них:"
    case Item(i, k, v) => "*Вакансия " + NatToString(i) + " из " + NatToString(k) + "*\n\n" + FormatVacancyMessage(v)
    case ShowAll(n) => "📊 *Всего найдено " + NatToString(n) + " новых вакансий.*\nНажмите кнопку ниже чтобы увидеть все результаты."
  }

  /** The show-all message carries one keyboard with one button; the others carry none. */
  function MessageKeyboard(m: Message): Option<Keyboard>
  {
    if m.ShowAll? then Some([[ShowAllButton]]) else None
  }

  function Min(a: nat, b: nat): nat {
    if a < b then a else b
  }

  /** Item messages for `shown`, the first few of the batch, numbered from `from + 1`. */
  function Items(shown: seq<Vacancy>, from: nat): (r: seq<Message>)
    requires from <= |shown|
    ensures |r| == |shown| - from
    decreases |shown| - from
  {
    if from == |shown| then [] else [Item(from + 1, |shown|, shown[from])] + Items(shown, from + 1)
  }

  /** `send_vacancy_notifications` as the messages it tries to send, in order. */
  function Plan(vs: seq<Vacancy>): (r: seq<Message>)
    ensures |r| <= 5
    ensures r == [] <==> vs == []
    ensures vs != [] ==> r[0] == Summary(|vs|)
  {
    if vs == [] then []
    else [Summary(|vs|)] + Items(vs[..Min(3, |vs|)], 0) + (if |vs| > 3 then [ShowAll(|vs|)] else [])
  }

  lemma {:induction false} ItemsShape(shown: seq<Vacancy>, from: nat)
    requires from <= |shown|
    ensures |Items(shown, from)| == |shown| - from
    ensures forall i :: 0 <= i < |shown| - from ==>
      Items(shown, from)[i] == Item(from + i + 1, |shown|, shown[from + i])
    decreases |shown| - from
  {
    if from < |shown| {
      ItemsShape(shown, from + 1);
      var rest := Items(shown, from + 1);
      assert Items(shown, from) == [Item(from + 1, |shown|, shown[from])] + rest;
      forall i | 0 <= i < |shown| - from
        ensures Items(shown, from)[i] == Item(from + i + 1, |shown|, shown[from + i])
      {
        if i > 0 {
          assert Items(shown, from)[i] == rest[i - 1];
        }
      }
    }
  }

  /**
   * For n new vacancies: a summary carrying n, then items "i+1 of min(3, n)" for
   * the first min(3, n), then a show-all message exactly when n > 3.
   */
  lemma PlanShape(vs: seq<Vacancy>)
    requires vs != []
    ensures var k := Min(3, |vs|); var plan := Plan(vs);
      && |plan| == 1 + k + (if |vs| > 3 then 1 else 0)
      && plan[0] == Summary(|vs|)
      && (forall i :: 0 <= i < k ==> plan[1 + i] == Item(i + 1, k, vs[i]))
      && (plan[|plan| - 1].ShowAll? <==> |vs| > 3)
      && (forall i :: 0 <= i < |plan| - 1 ==> !plan[i].ShowAll?)
  {
    var k := Min(3, |vs|);
    ItemsShape(vs[..k], 0);
  }

  /** What a round of sending achieved: the messages that went out, and whether an exception escaped. */
  datatype Delivery = Delivery(sent: seq<Message>, raised: bool)

  /**
   * Sending the plan from position `from` on when the sends at the positions in
   * `failing` raise: a failing item is logged and skipped, a failing summary or
   * show-all message ends the round with the exception.
   */
  function Deliver(plan: seq<Message>, failing: set<nat>, from: nat): (d: Delivery)
    ensures from >= |plan| ==> d.sent == []
    ensures from < |plan| ==> |d.sent| <= |plan| - from
    decreases |plan| - from
  {
    if from >= |plan| then Delivery([], false)
    else if from in failing then
      if plan[from].Item? then Deliver(plan, failing, from + 1) else Delivery([], true)
    else
      var rest := Deliver(plan, failing, from + 1);
      Delivery([plan[from]] + rest.sent, rest.raised)
  }

  /** Only messages of the plan go out, and an exception escapes only from a summary or show-all send. */
  lemma {:induction false} DeliverSound(plan: seq<Message>, failing: set<nat>, from: nat)
    ensures forall m :: m in Deliver(plan, failing, from).sent ==> m in plan[from..]
    ensures Deliver(plan, failing, from).raised <==>
      exists i :: from <= i < |plan| && i in failing && !plan[i].Item?
    decreases |plan| - from
  {
    if from < |plan| {
      DeliverSound(plan, failing, from + 1);
      assert forall m :: m in plan[from + 1..] ==> m in plan[from..];
      if from in failing && !plan[from].Item? {
      } else {
        assert forall i :: from < i < |plan| ==> plan[i] == plan[from + 1..][i - from - 1];
      }
    }
  }

  /** A failing item does not stop the later messages: every message after it that does not fail is still sent. */
  lemma {:induction false} DeliverSkipsFailedItems(plan: seq<Message>, failing: set<nat>, from: nat)
    requires forall i :: from <= i < |plan| && i in failing ==> plan[i].Item?
    ensures !Deliver(plan, failing, from).raised
    ensures forall i :: from <= i < |plan| && i !in failing ==> plan[i] in Deliver(plan, failing, from).sent
    decreases |plan| - from
  {
    if from < |plan| {
      DeliverSkipsFailedItems(plan, failing, from + 1);
    }
  }

  /** When nothing fails, the whole plan goes out in order. */
  lemma {:induction false} DeliverAll(plan: seq<Message>, from: nat)
    requires from <= |plan|
    ensures Deliver(plan, {}, from) == Delivery(plan[from..], false)
    decreases |plan| - from
  {
    if from < |plan| {
      DeliverAll(plan, from + 1);
      assert plan[from..] == [plan[from]] + plan[from + 1..];
    }
  }

  /** The summary is sent outside any guard: when it fails, nothing is sent and the exception escapes. */
  lemma SummaryFailure(vs: seq<Vacancy>, failing: set<nat>)
    requires vs != [] && 0 in failing
    ensures Deliver(Plan(vs), failing, 0) == Delivery([], true)
  {
  }

  // ---- one user's check ----

  /** The ledger and the messages after the check of one user. */
  datatype Outcome = Outcome(ledger: Ledger, sent: seq<Message>)

  /**
   * `check_new_vacancies_for_user` once the search has returned `items`: with
   * no filters or no results nothing happens; otherwise the new results are
   * planned and sent, and their ids are recorded unless an exception escaped.
   */
  function UserCheck(ledger: Ledger, user: int, configured: bool, items: seq<Vacancy>, failing: set<nat>): (o: Outcome)
    ensures |o.sent| <= 5
    ensures ledger.Keys <= o.ledger.Keys
  {
    if !configured || items == [] then Outcome(ledger, [])
    else
      var seen := Seen(ledger, user);
      var batch := Fresh(items, seen);
      if batch == [] then Outcome(ledger, [])
      else
        var d := Deliver(Plan(batch), failing, 0);
        if d.raised then Outcome(ledger, d.sent)
        else Outcome(ledger[user := seen + Ids(batch)], d.sent)
  }

  lemma FreshSnoc(vs: seq<Vacancy>, v: Vacancy, seen: set<string>)
    ensures Fresh(vs + [v], seen) == Fresh(vs, seen) + (if IsNew(v, seen) then [v] else [])
  {
    assert (vs + [v])[..|vs|] == vs;
  }

  lemma IdsSnoc(vs: seq<Vacancy>, v: Vacancy)
    ensures Ids(vs + [v]) == Ids(vs) + (if HasId(v) then {v.id.value} else {})
  {
    assert (vs + [v])[..|vs|] == vs;
  }

  /** The new batch of a concatenation is the concatenation of the new batches: the search order is kept. */
  lemma {:induction false} FreshAppend(vs: seq<Vacancy>, ws: seq<Vacancy>, seen: set<string>)
    ensures Fresh(vs + ws, seen) == Fresh(vs, seen) + Fresh(ws, seen)
    decreases |ws|
  {
    if ws == [] {
      assert vs + ws == vs;
    } else {
      var w := ws[..|ws| - 1];
      var last := ws[|ws| - 1];
      assert ws == w + [last];
      assert vs + ws == (vs + w) + [last];
      FreshAppend(vs, w, seen);
      FreshSnoc(vs + w, last, seen);
      FreshSnoc(w, last, seen);
    }
  }

  /** A result is in the new batch exactly when it is a result with an unseen id. */
  lemma {:induction false} FreshMembers(vs: seq<Vacancy>, seen: set<string>)
    ensures forall v :: v in Fresh(vs, seen) <==> v in vs && IsNew(v, seen)
  {
    if vs != [] {
      var p := vs[..|vs| - 1];
      FreshMembers(p, seen);
      assert vs == p + [vs[|vs| - 1]];
    }
  }

  /** The filter compares with the ids sent before, not with the batch: a repeated new result stays twice. */
  lemma FreshKeepsRepeats(v: Vacancy, seen: set<string>)
    requires IsNew(v, seen)
    ensures Fresh([v, v], seen) == [v, v]
  {
    FreshSnoc([v], v, seen);
    FreshSnoc([], v, seen);
    assert [v] == [] + [v];
    assert [v, v] == [v] + [v];
  }

  /** An id is recorded exactly when some result carries it. */
  lemma {:induction false} IdsMembers(vs: seq<Vacancy>)
    ensures forall x :: x in Ids(vs) <==> exists i :: 0 <= i < |vs| && HasId(vs[i]) && vs[i].id.value == x
  {
    if vs != [] {
      var p := vs[..|vs| - 1];
      IdsMembers(p);
      forall x ensures x in Ids(vs) <==> exists i :: 0 <= i < |vs| && HasId(vs[i]) && vs[i].id.value == x {
        if exists i :: 0 <= i < |vs| && HasId(vs[i]) && vs[i].id.value == x {
          var i :| 0 <= i < |vs| && HasId(vs[i]) && vs[i].id.value == x;
          if i < |p| { assert p[i] == vs[i]; }
        }
        if exists i :: 0 <= i < |p| && HasId(p[i]) && p[i].id.value == x {
          var i :| 0 <= i < |p| && HasId(p[i]) && p[i].id.value == x;
          assert vs[i] == p[i];
        }
      }
    }
  }

  /** Once the ids of the new batch are recorded, the same results hold nothing new. */
  lemma {:induction false} FreshAfterRecording(vs: seq<Vacancy>, seen: set<string>)
    ensures Fresh(vs, seen + Ids(Fresh(vs, seen))) == []
  {
    var batch := Fresh(vs, seen);
    var again := Fresh(vs, seen + Ids(batch));
    assert again == [] || again[0] in again;
    FreshMembers(vs, seen);
    IdsMembers(batch);
    FreshMembers(vs, seen + Ids(batch));
    forall v | v in vs ensures !IsNew(v, seen + Ids(batch)) {
      if IsNew(v, seen) {
        assert v in batch;
        var i :| 0 <= i < |batch| && batch[i] == v;
        assert v.id.value in Ids(batch);
      }
    }
  }

  /** With no filters, no results, or only results sent before, nothing is sent and the ledger is unchanged. */
  lemma NothingToSend(ledger: Ledger, user: int, configured: bool, items: seq<Vacancy>, failing: set<nat>)
    requires !configured || items == [] || Fresh(items, Seen(ledger, user)) == []
    ensures UserCheck(ledger, user, configured, items, failing) == Outcome(ledger, [])
  {
  }

  /** Nothing but the user's own set changes, and that only grows; if sending raised it does not change either. */
  lemma UserCheckFrame(ledger: Ledger, user: int, configured: bool, items: seq<Vacancy>, failing: set<nat>)
    ensures var after := UserCheck(ledger, user, configured, items, failing).ledger;
      && (forall u :: u != user ==> (u in after <==> u in ledger) && (u in ledger ==> after[u] == ledger[u]))
      && Seen(ledger, user) <= Seen(after, user)
  {
  }

  /**
   * After a round that went through, the user's set is the old set plus the id
   * of every new result, the unshown ones beyond the third included.
   */
  lemma UserCheckRecords(ledger: Ledger, user: int, items: seq<Vacancy>, failing: set<nat>)
    requires Fresh(items, Seen(ledger, user)) != []
    requires !Deliver(Plan(Fresh(items, Seen(ledger, user))), failing, 0).raised
    ensures var batch := Fresh(items, Seen(ledger, user));
      UserCheck(ledger, user, true, items, failing).ledger[user] == Seen(ledger, user) + Ids(batch)
    ensures forall v :: v in items && HasId(v) ==> v.id.value in UserCheck(ledger, user, true, items, failing).ledger[user]
  {
    var seen := Seen(ledger, user);
    var batch := Fresh(items, seen);
    FreshMembers(items, seen);
    IdsMembers(batch);
    forall v | v in items && HasId(v) ensures v.id.value in seen + Ids(batch) {
      if v.id.value !in seen {
        assert v in batch;
        var i :| 0 <= i < |batch| && batch[i] == v;
      }
    }
  }

  /** A round whose sending raised records nothing. */
  lemma UserCheckRaised(ledger: Ledger, user: int, items: seq<Vacancy>, failing: set<nat>)
    requires Fresh(items, Seen(ledger, user)) != []
    requires Deliver(Plan(Fresh(items, Seen(ledger, user))), failing, 0).raised
    ensures UserCheck(ledger, user, true, items, failing).ledger == ledger
  {
  }

  /** Checking the same results again right after a successful round sends nothing. */
  lemma RecheckSendsNothing(ledger: Ledger, user: int, items: seq<Vacancy>, failing: set<nat>, failing2: set<nat>)
    requires Fresh(items, Seen(ledger, user)) != []
    requires !Deliver(Plan(Fresh(items, Seen(ledger, user))), failing, 0).raised
    ensures var after := UserCheck(ledger, user, true, items, failing).ledger;
      UserCheck(after, user, true, items, failing2) == Outcome(after, [])
  {
    var seen := Seen(ledger, user);
    FreshAfterRecording(items, seen);
  }

  // ---- the pass over all users ----

  /** One user's turn in a pass: the inputs its check depends on. */
  datatype UserRun = UserRun(userId: int, filters: map<string, string>, dateFrom: string,
                             response: Response, failing: set<nat>)

  /** The ledger after the checks of `runs`, one after the other. */
  function RunAll(ledger: Ledger, runs: seq<UserRun>): (r: Ledger)
    ensures ledger.Keys <= r.Keys
  {
    if runs == [] then ledger
    else
      var r := runs[|runs| - 1];
      UserCheck(RunAll(ledger, runs[..|runs| - 1]), r.userId, |r.filters| != 0, ResponseItems(r.response), r.failing).ledger
  }

  /** A user without a turn in the pass keeps the set it had. */
  lemma {:induction false} RunAllOthers(ledger: Ledger, runs: seq<UserRun>, u: int)
    requires forall i :: 0 <= i < |runs| ==> runs[i].userId != u
    ensures Seen(RunAll(ledger, runs), u) == Seen(ledger, u)
    ensures u in RunAll(ledger, runs) <==> u in ledger
  {
    if runs != [] {
      var r := runs[|runs| - 1];
      RunAllOthers(ledger, runs[..|runs| - 1], u);
      UserCheckFrame(RunAll(ledger, runs[..|runs| - 1]), r.userId, |r.filters| != 0, ResponseItems(r.response), r.failing);
    }
  }

  /** No pass forgets an id. */
  lemma {:induction false} RunAllGrows(ledger: Ledger, runs: seq<UserRun>, u: int)
    ensures Seen(ledger, u) <= Seen(RunAll(ledger, runs), u)
  {
    if runs != [] {
      var r := runs[|runs| - 1];
      var before := RunAll(ledger, runs[..|runs| - 1]);
      RunAllGrows(ledger, runs[..|runs| - 1], u);
      UserCheckFrame(before, r.userId, |r.filters| != 0, ResponseItems(r.response), r.failing);
    }
  }

  class SchedulerService {
    /** `processed_vacancies`. */
    var processed: Ledger
    /** `check_interval`, in minutes. */
    var checkInterval: int

    constructor ()
      ensures processed == map[] && checkInterval == 60
    {
      processed := map[];
      checkInterval := 60;
    }

    /** `start`: set the interval and reset the ledger of the known users. */
    method Start(intervalMinutes: int, users: seq<int>)
      modifies this
      ensures checkInterval == intervalMinutes
      ensures processed.Keys == old(processed).Keys + set u | u in users
      ensures forall u :: u in users ==> processed[u] == {}
      ensures forall u :: u in old(processed) && u !in users ==> processed[u] == old(processed)[u]
    {
      checkInterval := intervalMinutes;
      LoadProcessedVacancies(users);
    }

    /** `_load_processed_vacancies`: every listed user starts with an empty set. */
    method LoadProcessedVacancies(users: seq<int>)
      modifies this
      ensures checkInterval == old(checkInterval)
      ensures processed.Keys == old(processed).Keys + set u | u in users
      ensures forall u :: u in users ==> processed[u] == {}
      ensures forall u :: u in old(processed) && u !in users ==> processed[u] == old(processed)[u]
    {
      var i := 0;
      while i < |users|
        invariant 0 <= i <= |users|
        invariant checkInterval == old(checkInterval)
        invariant processed.Keys == old(processed).Keys + set u | u in users[..i]
        invariant forall u :: u in users[..i] ==> processed[u] == {}
        invariant forall u :: u in old(processed) && u !in users[..i] ==> processed[u] == old(processed)[u]
      {
        assert users[..i + 1] == users[..i] + [users[i]];
        processed := processed[users[i] := {}];
        i := i + 1;
      }
      assert users[..i] == users;
    }

    /** `clear_user_history`: a known user's set is emptied; an unknown user gets no entry. */
    method ClearUserHistory(userId: int)
      modifies this
      ensures processed == if userId in old(processed) then old(processed)[userId := {}] else old(processed)
    {
      if userId in processed {
        processed := processed[userId := {}];
      }
    }

    /**
     * `check_new_vacancies_for_user`.  `query` is the search that was sent
     * (None when the user has no filters); `sent` the messages that went out.
     */
    method CheckUser(userId: int, filters: map<string, string>, dateFrom: string, response: Response, failing: set<nat>)
      returns (sent: seq<Message>, query: Option<map<Key, string>>)
      modifies this
      ensures checkInterval == old(checkInterval)
      ensures Outcome(processed, sent) == UserCheck(old(processed), userId, |filters| != 0, ResponseItems(response), failing)
      ensures query.None? <==> |filters| == 0
      ensures query.Some? ==> && DateFrom in query.value && query.value[DateFrom] == dateFrom
                              && OrderBy in query.value && query.value[OrderBy] == "publication_time"
                              && PerPage in query.value && query.value[PerPage] == "10"
    {
      if |filters| == 0 {
        return [], None;
      }
      var q, items := AutoSearch(filters, dateFrom, response);
      query := Some(q);
      if items == [] {
        return [], query;
      }
      var seen := Seen(processed, userId);
      var batch := NewVacancies(items, seen);
      if batch == [] {
        return [], query;
      }
      var delivery := Deliver(Plan(batch), failing, 0);
      sent := delivery.sent;
      if delivery.raised {
        return;
      }
      var recorded := RecordIds(seen, batch);
      processed := processed[userId := recorded];
    }

    /** `check_new_vacancies_for_all_users`: each user in turn; one user's failure does not stop the rest. */
    method CheckAllUsers(runs: seq<UserRun>)
      modifies this
      ensures checkInterval == old(checkInterval)
      ensures processed == RunAll(old(processed), runs)
    {
      var i := 0;
      while i < |runs|
        invariant 0 <= i <= |runs|
        invariant checkInterval == old(checkInterval)
        invariant processed == RunAll(old(processed), runs[..i])
      {
        assert runs[..i + 1][..i] == runs[..i];
        var r := runs[i];
        var sent, query := CheckUser(r.userId, r.filters, r.dateFrom, r.response, r.failing);
        i := i + 1;
      }
      assert runs[..i] == runs;
    }
  }

  /** The user's filters as search parameters, with the three values the automatic search forces. */
  method AutoSearchParams(filters: map<string, string>, dateFrom: string) returns (params: map<Key, Value>)
    ensures DateFrom in params && params[DateFrom] == Str(dateFrom)
    ensures OrderBy in params && params[OrderBy] == Str("publication_time")
    ensures PerPage in params && params[PerPage] == Int(10)
    ensures forall p: map<Key, Value> :: Normalizes(filters, p) ==>
      params == p[DateFrom := Str(dateFrom)][OrderBy := Str("publication_time")][PerPage := Int(10)]
  {
    params := ToHhParams(filters);
    forall p: map<Key, Value> | Normalizes(filters, p) ensures p == params {
      NormalizesUnique(filters, p, params);
    }
    params := params[DateFrom := Str(dateFrom)];
    params := params[OrderBy := Str("publication_time")];
    params := params[PerPage := Int(10)];
  }

  /** The forced values reach the query as the strings the API expects. */
  lemma SearchQueryForced(params: map<Key, Value>, dateFrom: string)
    requires DateFrom in params && params[DateFrom] == Str(dateFrom)
    requires OrderBy in params && params[OrderBy] == Str("publication_time")
    requires PerPage in params && params[PerPage] == Int(10)
    ensures var merged := Defaults + params;
      && DateFrom in Present(merged) && Serialize(DateFrom, merged[DateFrom]) == dateFrom
      && OrderBy in Present(merged) && Serialize(OrderBy, merged[OrderBy]) == "publication_time"
      && PerPage in Present(merged) && Serialize(PerPage, merged[PerPage]) == "10"
  {
    var merged := Defaults + params;
    assert merged[DateFrom] == params[DateFrom] && merged[OrderBy] == params[OrderBy] && merged[PerPage] == params[PerPage];
    assert NatToString(10) == "10" by {
      assert 10 / 10 == 1 && 10 % 10 == 0;
      assert NatToString(1) == [DigitChar(1)];
    }
  }

  /** The automatic search of one user: the query sent and the results returned. */
  method AutoSearch(filters: map<string, string>, dateFrom: string, response: Response)
    returns (query: map<Key, string>, items: seq<Vacancy>)
    ensures DateFrom in query && query[DateFrom] == dateFrom
    ensures OrderBy in query && query[OrderBy] == "publication_time"
    ensures PerPage in query && query[PerPage] == "10"
    ensures items == ResponseItems(response)
  {
    var params := AutoSearchParams(filters, dateFrom);
    query, items := HhClient.SearchVacancies(params, response);
    ForcedQuery(params, dateFrom, query);
  }

  /** Whatever else the search sends, its query carries the three forced values. */
  lemma ForcedQuery(params: map<Key, Value>, dateFrom: string, query: map<Key, string>)
    requires DateFrom in params && params[DateFrom] == Str(dateFrom)
    requires OrderBy in params && params[OrderBy] == Str("publication_time")
    requires PerPage in params && params[PerPage] == Int(10)
    requires query.Keys == Present(Defaults + params).Keys - (if Text in query && query[Text] != "" then {} else {SearchField})
    requires forall k :: k in query ==> query[k] == Serialize(k, (Defaults + params)[k])
    ensures DateFrom in query && query[DateFrom] == dateFrom
    ensures OrderBy in query && query[OrderBy] == "publication_time"
    ensures PerPage in query && query[PerPage] == "10"
  {
    SearchQueryForced(params, dateFrom);
  }

  /** The loop that builds `new_vacancies`. */
  method NewVacancies(items: seq<Vacancy>, seen: set<string>) returns (batch: seq<Vacancy>)
    ensures batch == Fresh(items, seen)
  {
    batch := [];
    var i := 0;
    while i < |items|
      invariant 0 <= i <= |items|
      invariant batch == Fresh(items[..i], seen)
    {
      assert items[..i + 1][..i] == items[..i];
      var vacancy := items[i];
      if HasId(vacancy) && vacancy.id.value !in seen {
        batch := batch + [vacancy];
      }
      i := i + 1;
    }
    assert items[..i] == items;
  }

  /** The loop that adds the batch's ids to the user's set. */
  method RecordIds(seen: set<string>, batch: seq<Vacancy>) returns (recorded: set<string>)
    ensures recorded == seen + Ids(batch)
  {
    recorded := seen;
    var i := 0;
    while i < |batch|
      invariant 0 <= i <= |batch|
      invariant recorded == seen + Ids(batch[..i])
    {
      assert batch[..i + 1][..i] == batch[..i];
      var id := batch[i].id;
      if id.Some? && id.value != "" {
        recorded := recorded + {id.value};
      }
      i := i + 1;
    }
    assert batch[..i] == batch;
  }
}

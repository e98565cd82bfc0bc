/**
 * The HH API client (src/services/hh_client.py): turning typed search
 * parameters into query strings, merging the defaults of a vacancy search,
 * mapping the HTTP outcome to a list of vacancies, and rendering one vacancy
 * as a chat message.  The HTTP exchange itself is the `Response` input.
 */
module HhClient {
  import opened Wrappers
  import opened Strings
  import opened Values

  /** The `salary` object of an HH vacancy. */
  datatype SalaryRange = SalaryRange(salaryFrom: Option<int>, salaryTo: Option<int>, currency: Option<string>)

  /**
   * One item of the HH search result; a field is None when the key is missing
   * (`employer`, `area` and `experience` stand for the nested object's `name`).
   */
  datatype Vacancy = Vacancy(
    id: Option<string>,
    name: Option<string>,
    employer: Option<string>,
    salary: Option<SalaryRange>,
    area: Option<string>,
    experience: Option<string>,
    url: Option<string>)

  /** What the GET request produced: an exception, or a status with the body's `items` if it had any. */
  datatype Response = Raised | Http(status: int, items: Option<seq<Vacancy>>)

  // ---------------------------------------------------------------- _prepare_params

  /** The string `_prepare_params` sends for one non-None value, branch by branch. */
  function Serialize(key: Key, v: Value): (r: string)
    requires v != NoneValue
    ensures v.Str? ==> r == v.s
    ensures v.Int? ==> r == IntToString(v.i)
  {
    if v.Bool? then (if v.b then "true" else "false")   // str(value).lower()
    else if v.Int? && key != Area then IntToString(v.i)
    else if key == Area && (v.Int? || v.Str?) then (if v.Int? then IntToString(v.i) else v.s)
    else v.s
  }

  /** The non-None part of a parameter map. */
  function Present(params: map<Key, Value>): (r: map<Key, Value>)
    ensures r.Keys <= params.Keys
    ensures forall k :: k in r ==> r[k] == params[k] && r[k] != NoneValue
    ensures forall k :: k in params && params[k] != NoneValue ==> k in r
  {
    map k | k in params && params[k] != NoneValue :: params[k]
  }

  /** `_prepare_params`: drop None values and turn every other value into its string form. */
  method PrepareParams(params: map<Key, Value>) returns (prepared: map<Key, string>)
    ensures prepared.Keys == Present(params).Keys
    ensures forall k :: k in prepared ==> prepared[k] == Serialize(k, params[k])
  {
    prepared := map[];
    var todo := params.Keys;
    while todo != {}
      invariant todo <= params.Keys
      invariant prepared.Keys == Present(params).Keys - todo
      invariant forall k :: k in prepared ==> params[k] != NoneValue && prepared[k] == Serialize(k, params[k])
      decreases todo
    {
      var key :| key in todo;
      var value := params[key];
      if value != NoneValue {
        prepared := prepared[key := Serialize(key, value)];
      }
      todo := todo - {key};
    }
  }

  /** Booleans go out as "true"/"false", never as a number. */
  lemma SerializeBool(key: Key, b: bool)
    ensures Serialize(key, Bool(b)) == (if b then "true" else "false")
  {
  }

  /** A non-negative integer (a salary, a city id, a page size) goes out as its decimal form and reads back as itself. */
  lemma SerializeNat(key: Key, n: nat)
    ensures IsDigitString(Serialize(key, Int(n)))
    ensures ParseInt(Serialize(key, Int(n))) == Some(n)
  {
    ParseIntOfNatToString(n);
  }

  /** Strings go out verbatim, the area included. */
  lemma SerializeStr(key: Key, s: string)
    ensures Serialize(key, Str(s)) == s
  {
  }

  // ---------------------------------------------------------------- search_vacancies

  /** The defaults of `search_vacancies`: Moscow, ten per page, first page, newest first, search in titles. */
  const Defaults: map<Key, Value> :=
    map[Area := Int(1), PerPage := Int(10), Page := Int(0),
        OrderBy := Str("publication_time"), SearchField := Str("name")]

  /** Merging with the defaults: area and search_field are always present, and default to Moscow and to a non-None value. */
  lemma MergedDefaults(params: map<Key, Value>)
    ensures Area in Defaults + params && SearchField in Defaults + params
    ensures Area !in params ==> (Defaults + params)[Area] == Int(1)
    ensures SearchField !in params ==> (Defaults + params)[SearchField] != NoneValue
    ensures forall k :: k in params ==> (Defaults + params)[k] == params[k]
  {
  }

  /** The status rule: only a 200 answer yields vacancies, and only those under `items`. */
  function ResponseItems(response: Response): (items: seq<Vacancy>)
    ensures items != [] ==> response.Http? && response.status == 200 && response.items == Some(items)
    ensures response.Raised? || response.status != 200 || response.items.None? ==> items == []
    ensures response.Http? && response.status == 200 && response.items.Some? ==> items == response.items.value
  {
    match response
    case Raised => []
    case Http(status, body) => if status == 200 then body.GetOr([]) else []
  }

  /**
   * `query` is what `search_vacancies(**params)` sends: every present key of the
   * defaults overridden by `params`, in its string form, less `search_field`
   * when the text is missing or empty.
   */
  predicate QueryFor(params: map<Key, Value>, query: map<Key, string>) {
    && query.Keys == Present(Defaults + params).Keys - (if Text in query && query[Text] != "" then {} else {SearchField})
    && forall k :: k in query ==> query[k] == Serialize(k, (Defaults + params)[k])
  }

  /**
   * `search_vacancies` without the network: the caller's parameters override the
   * defaults, None values are dropped, everything is made a string, and
   * `search_field` is dropped when there is no non-empty text.  `query` is what
   * would be sent; `items` is what the call returns for `response`.
   */
  method SearchVacancies(params: map<Key, Value>, response: Response)
    returns (query: map<Key, string>, items: seq<Vacancy>)
    ensures query.Keys == Present(Defaults + params).Keys - (if Text in query && query[Text] != "" then {} else {SearchField})
    ensures forall k :: k in query ==> query[k] == Serialize(k, (Defaults + params)[k])
    ensures Area !in params ==> query[Area] == "1"
    ensures Text in params && params[Text].Str? ==> Text in query && query[Text] == params[Text].s
    ensures SearchField in query <==> Text in query && query[Text] != "" && (SearchField in params ==> params[SearchField] != NoneValue)
    ensures items == ResponseItems(response)
  {
    var merged := Defaults + params;
    MergedDefaults(params);
    var searchParams := Present(merged);
    var prepared := PrepareParams(searchParams);
    if Area !in params {
      assert IntToString(1) == [DigitChar(1)];
    }
    if Text in params && params[Text].Str? {
      SerializeStr(Text, params[Text].s);
    }
    assert SearchField in prepared <==> (SearchField in params ==> params[SearchField] != NoneValue);
    var textOn := Text in prepared && prepared[Text] != "";
    if SearchField in prepared && !textOn {
      query := prepared - {SearchField};
      assert query.Keys == prepared.Keys - {SearchField};
      assert Text in query <==> Text in prepared;
      assert !(Text in query && query[Text] != "");
    } else {
      query := prepared;
      if !textOn {
        assert prepared.Keys - {SearchField} == prepared.Keys;
      }
    }
    items := ResponseItems(response);
  }

  // ---------------------------------------------------------------- format_vacancy_message

  /** The three digits of a group of three, zero-padded. */
  function Pad3(k: nat): (r: string)
    requires k < 1000
    ensures |r| == 3 && AllDigits(r)
  {
    [DigitChar(k / 100), DigitChar(k / 10 % 10), DigitChar(k % 10)]
  }

  /** `f"{n:,}"` for a non-negative integer: groups of three from the right, joined by commas. */
  function Grouped(n: nat): string
  {
    if n < 1000 then NatToString(n) else Grouped(n / 1000) + "," + Pad3(n % 1000)
  }

  /** `f"{i:,}"` for any integer. */
  function IntGrouped(i: int): string
  {
    if i < 0 then "-" + Grouped(-i) else Grouped(i)
  }

  /** `s` with every `c` deleted. */
  function Without(s: string, c: char): (r: string)
    ensures Free(r, c)
  {
    if s == [] then [] else (if s[0] == c then [] else [s[0]]) + Without(s[1..], c)
  }

  lemma {:induction false} WithoutAppend(s: string, t: string, c: char)
    ensures Without(s + t, c) == Without(s, c) + Without(t, c)
  {
    if s == [] {
      assert s + t == t;
    } else {
      assert (s + t)[0] == s[0] && (s + t)[1..] == s[1..] + t;
      WithoutAppend(s[1..], t, c);
    }
  }

  lemma {:induction false} WithoutAbsent(s: string, c: char)
    requires Free(s, c)
    ensures Without(s, c) == s
  {
    if s != [] {
      WithoutAbsent(s[1..], c);
    }
  }

  /** The decimal form of n >= 1000 is that of n / 1000 followed by the last three digits. */
  lemma NatToStringSplit(n: nat)
    requires n >= 1000
    ensures NatToString(n) == NatToString(n / 1000) + Pad3(n % 1000)
  {
    var a, b, c := n / 10, n / 100, n / 1000;
    var r := n % 1000;
    assert n == 1000 * c + r && r < 1000;
    assert a == 100 * c + r / 10 && r / 10 < 100;
    assert b == 10 * c + r / 100 && r / 100 < 10;
    assert a / 10 == b && b / 10 == c;
    assert r / 100 == b % 10;
    assert r / 10 % 10 == a % 10;
    assert r % 10 == n % 10;
    calc {
      NatToString(n);
      NatToString(a) + [DigitChar(n % 10)];
      NatToString(b) + [DigitChar(a % 10)] + [DigitChar(n % 10)];
      NatToString(c) + [DigitChar(b % 10)] + [DigitChar(a % 10)] + [DigitChar(n % 10)];
    }
  }

  /** Deleting the separators from a grouped number gives its plain decimal form. */
  lemma {:induction false} GroupedDigits(n: nat)
    ensures Without(Grouped(n), ',') == NatToString(n)
  {
    if n < 1000 {
      WithoutAbsent(NatToString(n), ',');
    } else {
      GroupedDigits(n / 1000);
      WithoutAppend(Grouped(n / 1000) + ",", Pad3(n % 1000), ',');
      WithoutAppend(Grouped(n / 1000), ",", ',');
      WithoutAbsent(Pad3(n % 1000), ',');
      NatToStringSplit(n);
    }
  }

  lemma {:induction false} SplitAround(a: string, b: string, c: char)
    ensures Split(a + [c] + b, c) == Split(a, c) + Split(b, c)
    decreases |a|
  {
    if a == [] {
      assert a + [c] + b == [c] + b;
      assert ([c] + b)[1..] == b;
    } else {
      assert (a + [c] + b)[1..] == a[1..] + [c] + b;
      SplitAround(a[1..], b, c);
    }
  }

  /** The groups between separators: the first has one to three digits, every later one exactly three. */
  lemma {:induction false} GroupedShape(n: nat)
    ensures var g := Split(Grouped(n), ',');
      1 <= |g[0]| <= 3 && IsDigitString(g[0]) &&
      forall i :: 1 <= i < |g| ==> |g[i]| == 3 && AllDigits(g[i])
  {
    if n < 1000 {
      var s := NatToString(n);
      assert n < 10 ==> |s| == 1;
      assert n >= 10 ==> s == NatToString(n / 10) + [DigitChar(n % 10)];
      assert n >= 100 ==> NatToString(n / 10) == NatToString(n / 100) + [DigitChar(n / 10 % 10)];
      assert |s| <= 3;
      SplitPrefix(s, "", ',');
      assert s + "" == s;
    } else {
      GroupedShape(n / 1000);
      var p := Pad3(n % 1000);
      SplitAround(Grouped(n / 1000), p, ',');
      SplitPrefix(p, "", ',');
      assert p + "" == p;
      assert Grouped(n) == Grouped(n / 1000) + [','] + p;
    }
  }

  /** A bound counts only when it is present and not zero (Python truthiness). */
  predicate Given(bound: Option<int>) {
    bound.Some? && bound.value != 0
  }

  /** The salary line of a vacancy message. */
  function SalaryText(salary: Option<SalaryRange>): string
  {
    if salary.None? then "не указана"
    else
      var s := salary.value;
      var currency := s.currency.GetOr("RUR");
      if Given(s.salaryFrom) && Given(s.salaryTo) then
        ReplaceChar(IntGrouped(s.salaryFrom.value) + " - " + IntGrouped(s.salaryTo.value) + " " + currency, ',', ' ')
      else if Given(s.salaryFrom) then
        ReplaceChar("от " + IntGrouped(s.salaryFrom.value) + " " + currency, ',', ' ')
      else if Given(s.salaryTo) then
        ReplaceChar("до " + IntGrouped(s.salaryTo.value) + " " + currency, ',', ' ')
      else "не указана"
  }

  /** An amount with its thousands separated by spaces. */
  function SpacedAmount(i: int): string
  {
    ReplaceChar(IntGrouped(i), ',', ' ')
  }

  /**
   * The four shapes of the salary line: "A - B CUR", "от A CUR", "до B CUR" or
   * "не указана", the currency defaulting to RUR (one without commas is shown as is).
   */
  lemma SalaryTextShape(salary: Option<SalaryRange>)
    requires salary.Some? ==> Free(salary.value.currency.GetOr("RUR"), ',')
    ensures salary.None? || (!Given(salary.value.salaryFrom) && !Given(salary.value.salaryTo))
      ==> SalaryText(salary) == "не указана"
    ensures salary.Some? ==>
      var s := salary.value;
      var cur := s.currency.GetOr("RUR");
      && (Given(s.salaryFrom) && Given(s.salaryTo) ==>
            SalaryText(salary) == SpacedAmount(s.salaryFrom.value) + " - " + SpacedAmount(s.salaryTo.value) + " " + cur)
      && (Given(s.salaryFrom) && !Given(s.salaryTo) ==>
            SalaryText(salary) == "от " + SpacedAmount(s.salaryFrom.value) + " " + cur)
      && (!Given(s.salaryFrom) && Given(s.salaryTo) ==>
            SalaryText(salary) == "до " + SpacedAmount(s.salaryTo.value) + " " + cur)
  {
    if salary.Some? {
      var s := salary.value;
      var cur := s.currency.GetOr("RUR");
      ReplaceCharAbsent(cur, ',', ' ');
      ReplaceCharAbsent(" - ", ',', ' ');
      ReplaceCharAbsent(" ", ',', ' ');
      ReplaceCharAbsent("от ", ',', ' ');
      ReplaceCharAbsent("до ", ',', ' ');
      if Given(s.salaryFrom) && Given(s.salaryTo) {
        var a, b := IntGrouped(s.salaryFrom.value), IntGrouped(s.salaryTo.value);
        ReplaceCharAppend(a + " - " + b + " ", cur, ',', ' ');
        ReplaceCharAppend(a + " - " + b, " ", ',', ' ');
        ReplaceCharAppend(a + " - ", b, ',', ' ');
        ReplaceCharAppend(a, " - ", ',', ' ');
      } else if Given(s.salaryFrom) {
        var a := IntGrouped(s.salaryFrom.value);
        ReplaceCharAppend("от " + a + " ", cur, ',', ' ');
        ReplaceCharAppend("от " + a, " ", ',', ' ');
        ReplaceCharAppend("от ", a, ',', ' ');
      } else if Given(s.salaryTo) {
        var b := IntGrouped(s.salaryTo.value);
        ReplaceCharAppend("до " + b + " ", cur, ',', ' ');
        ReplaceCharAppend("до " + b, " ", ',', ' ');
        ReplaceCharAppend("до ", b, ',', ' ');
      }
    }
  }

  /** `n * 1000` for n of three digits is grouped as those digits, a separator and "000". */
  lemma GroupedThousandTimes(n: nat)
    requires 100 <= n < 1000
    ensures Grouped(n * 1000) == NatToString(n) + ",000"
  {
    assert (n * 1000) / 1000 == n && (n * 1000) % 1000 == 0;
    assert Pad3(0) == "000";
  }

  /** `n` thousand, for n of three digits, is shown as those digits, a space and "000". */
  lemma SpacedThousands(n: nat)
    requires 100 <= n < 1000
    ensures SpacedAmount(n * 1000) == NatToString(n) + " 000"
  {
    GroupedThousandTimes(n);
    ReplaceCharAppend(NatToString(n), ",000", ',', ' ');
    ReplaceCharAbsent(NatToString(n), ',', ' ');
  }

  lemma SalaryBothBounds(low: int, high: int, currency: string)
    requires low != 0 && high != 0 && Free(currency, ',')
    ensures SalaryText(Some(SalaryRange(Some(low), Some(high), Some(currency))))
         == SpacedAmount(low) + " - " + SpacedAmount(high) + " " + currency
  {
    SalaryTextShape(Some(SalaryRange(Some(low), Some(high), Some(currency))));
  }

  lemma ThreeDigits(n: nat)
    requires 100 <= n < 1000
    ensures NatToString(n) == Pad3(n)
  {
    var a := n / 10;
    assert a >= 10 && a / 10 == n / 100 && a % 10 == n / 10 % 10;
    assert NatToString(n) == NatToString(a) + [DigitChar(n % 10)];
    assert NatToString(a) == [DigitChar(n / 100)] + [DigitChar(a % 10)];
  }

  /** One example amount: `n` thousand for three digits `d` of n reads "d 000". */
  lemma SpacedExample(n: nat, d: string)
    requires 100 <= n < 1000 && Pad3(n) == d
    ensures SpacedAmount(n * 1000) == d + " 000"
  {
    SpacedThousands(n);
    ThreeDigits(n);
  }

  lemma SpacedExampleLow()
    ensures SpacedAmount(100000) == "100 000"
  {
    assert Pad3(100) == "100";
    SpacedExample(100, "100");
    assert "100" + " 000" == "100 000";
  }

  lemma SpacedExampleHigh()
    ensures SpacedAmount(150000) == "150 000"
  {
    assert Pad3(150) == "150";
    SpacedExample(150, "150");
    assert "150" + " 000" == "150 000";
  }

  lemma SpacedExampleAmounts()
    ensures SpacedAmount(100000) == "100 000" && SpacedAmount(150000) == "150 000"
  {
    SpacedExampleLow();
    SpacedExampleHigh();
  }

  /** A salary of 100000 to 150000 roubles reads "100 000 - 150 000 RUR". */
  lemma SalaryExample()
    ensures SalaryText(Some(SalaryRange(Some(100000), Some(150000), Some("RUR")))) == "100 000 - 150 000 RUR"
  {
    SalaryBothBounds(100000, 150000, "RUR");
    SpacedExampleAmounts();
    ConcatExample("100 000", "150 000");
  }

  lemma ConcatExample(a: string, b: string)
    requires a == "100 000" && b == "150 000"
    ensures a + " - " + b + " " + "RUR" == "100 000 - 150 000 RUR"
  {
    var x := a + " - " + b + " " + "RUR";
    assert |x| == 21;
    assert x[..7] == a && x[7..10] == " - " && x[10..17] == b && x[17..] == " RUR";
  }

  /** The lines of a vacancy message, top to bottom. */
  function MessageLines(v: Vacancy): seq<string>
  {
    [ "💼 *" + v.name.GetOr("Без названия") + "*",
      "",
      "🏢 *Компания:* " + v.employer.GetOr("Не указано"),
      "💰 *Зарплата:* " + SalaryText(v.salary),
      "📍 *Местоположение:* " + v.area.GetOr("Не указано"),
      "📊 *Опыт:* " + v.experience.GetOr("Не указан"),
      "🔗 [Ссылка на вакансию](" + v.url.GetOr("") + ")" ]
  }

  /** `format_vacancy_message`: the seven lines above joined by line breaks (the title is followed by a blank line). */
  function FormatVacancyMessage(v: Vacancy): string
  {
    Join(MessageLines(v), "\n")
  }

  /** When no field holds a line break, the message splits back into exactly its seven lines. */
  lemma MessageSplitsIntoLines(v: Vacancy)
    requires forall k :: 0 <= k < |MessageLines(v)| ==> Free(MessageLines(v)[k], '\n')
    ensures Split(FormatVacancyMessage(v), '\n') == MessageLines(v)
  {
    var l := MessageLines(v);
    SplitJoin(l, '\n');
  }
}

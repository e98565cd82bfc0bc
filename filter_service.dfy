/**
 * FilterService.to_hh_params (src/services/filter_service.py): a user's stored
 * filters (filter type -> text) become the parameters of an HH vacancy search.
 */
module FilterService {
  import opened Wrappers
  import opened Strings
  import opened Values

  /** `exp_map`: the four experience codes, each mapped to itself. */
  const ExperienceCodes: map<string, string> :=
    map["noExperience" := "noExperience", "between1And3" := "between1And3",
        "between3And6" := "between3And6", "moreThan6" := "moreThan6"]

  /** `schedule_map`: the bot's work formats and the HH schedule codes they stand for. */
  const ScheduleCodes: map<string, string> :=
    map["office" := "fullDay", "remote" := "remote", "hybrid" := "flexible", "flexible" := "flexible"]

  /** Every key the search parameters can carry. */
  const OutputKeys: set<Key> := {Text, Experience, Salary, OnlyWithSalary, Schedule, Area}

  /** Which of the three branches of the area rule applies, if any. */
  datatype AreaRule = NoArea | AreaId(id: nat) | RemoteArea | AreaName(name: string)

  function AreaRuleOf(filters: map<string, string>): AreaRule
  {
    if !Truthy(filters, "area") then NoArea
    else if IsDigitString(filters["area"]) then AreaId(DecimalValue(filters["area"]))
    else if filters["area"] == "remote" then RemoteArea
    else AreaName(filters["area"])
  }

  // The rules below give, key by key, what the normalised parameters hold.

  predicate TextRule(f: map<string, string>, p: map<Key, Value>) {
    var profession := if Truthy(f, "profession") then Some(f["profession"]) else None;
    match AreaRuleOf(f)
    case AreaName(name) =>
      Text in p && p[Text] == Str(Strip(profession.GetOr("") + " " + name))
    case _ =>
      (Text in p <==> profession.Some?) && (profession.Some? ==> p[Text] == Str(profession.value))
  }

  predicate ExperienceRule(f: map<string, string>, p: map<Key, Value>) {
    (Experience in p <==> Truthy(f, "experience") && f["experience"] in ExperienceCodes) &&
    (Experience in p ==> p[Experience] == Str(f["experience"]))
  }

  predicate SalaryRule(f: map<string, string>, p: map<Key, Value>) {
    var parsed := Truthy(f, "salary_min") && ParseInt(f["salary_min"]).Some?;
    (Salary in p <==> parsed) && (OnlyWithSalary in p <==> parsed) &&
    (parsed ==> p[Salary] == Int(ParseInt(f["salary_min"]).value) && p[OnlyWithSalary] == Bool(true))
  }

  predicate ScheduleRule(f: map<string, string>, p: map<Key, Value>) {
    if AreaRuleOf(f) == RemoteArea then
      Schedule in p && p[Schedule] == Str("remote")
    else
      (Schedule in p <==> Truthy(f, "schedule") && f["schedule"] in ScheduleCodes) &&
      (Schedule in p ==> p[Schedule] == Str(ScheduleCodes[f["schedule"]]))
  }

  predicate AreaParamRule(f: map<string, string>, p: map<Key, Value>) {
    (Area in p <==> AreaRuleOf(f).AreaId?) &&
    (Area in p ==> p[Area] == Int(AreaRuleOf(f).id))
  }

  /** `p` is what `to_hh_params` returns for the filters `f`. */
  predicate Normalizes(f: map<string, string>, p: map<Key, Value>) {
    && p.Keys <= OutputKeys
    && TextRule(f, p)
    && ExperienceRule(f, p)
    && SalaryRule(f, p)
    && ScheduleRule(f, p)
    && AreaParamRule(f, p)
  }

  /**
   * `to_hh_params`: fills the parameter dictionary one filter at a time; the area
   * filter comes last and may overwrite `schedule` or rewrite `text`.
   */
  method ToHhParams(filters: map<string, string>) returns (params: map<Key, Value>)
    ensures Normalizes(filters, params)
  {
    params := map[];

    if Truthy(filters, "profession") {
      params := params[Text := Str(filters["profession"])];
    }
    assert params.Keys <= {Text};

    if Truthy(filters, "experience") {
      var experience := filters["experience"];
      if experience in ExperienceCodes && ExperienceCodes[experience] != "" {
        ExperienceCodesAreIdentity(experience);
        params := params[Experience := Str(ExperienceCodes[experience])];
      }
    }
    assert ExperienceRule(filters, params) by {
      if Truthy(filters, "experience") && filters["experience"] in ExperienceCodes {
        ExperienceCodesAreIdentity(filters["experience"]);
      }
    }

    if Truthy(filters, "salary_min") {
      var salary := ParseInt(filters["salary_min"]);
      if salary.Some? {
        params := params[Salary := Int(salary.value)];
        params := params[OnlyWithSalary := Bool(true)];
      }
      // otherwise the parse error is logged and the salary is left out
    }
    assert SalaryRule(filters, params);

    if Truthy(filters, "schedule") {
      var schedule := filters["schedule"];
      if schedule in ScheduleCodes && ScheduleCodes[schedule] != "" {
        params := params[Schedule := Str(ScheduleCodes[schedule])];
      }
    }
    assert params.Keys <= OutputKeys - {Area};
    assert Schedule in params <==> Truthy(filters, "schedule") && filters["schedule"] in ScheduleCodes by {
      if Truthy(filters, "schedule") && filters["schedule"] in ScheduleCodes {
        ScheduleCodesNonEmpty(filters["schedule"]);
      }
    }

    params := ApplyArea(filters, params);
  }

  /** What holds before the area filter is looked at: every filter but the area one is in. */
  predicate BeforeArea(f: map<string, string>, p: map<Key, Value>) {
    && p.Keys <= OutputKeys - {Area}
    && (Text in p <==> Truthy(f, "profession"))
    && (Text in p ==> p[Text] == Str(f["profession"]))
    && ExperienceRule(f, p)
    && SalaryRule(f, p)
    && (Schedule in p <==> Truthy(f, "schedule") && f["schedule"] in ScheduleCodes)
    && (Schedule in p ==> p[Schedule] == Str(ScheduleCodes[f["schedule"]]))
  }

  /** The last step of `to_hh_params`: a city id, the remote sentinel, or a city name folded into the text. */
  method ApplyArea(filters: map<string, string>, before: map<Key, Value>) returns (params: map<Key, Value>)
    requires BeforeArea(filters, before)
    ensures Normalizes(filters, params)
  {
    params := before;
    if Truthy(filters, "area") {
      var area := filters["area"];
      if IsDigitString(area) {
        params := params[Area := Int(DecimalValue(area))];
        assert AreaRuleOf(filters) == AreaId(DecimalValue(area));
      } else if area == "remote" {
        params := params[Schedule := Str("remote")];
        assert AreaRuleOf(filters) == RemoteArea;
      } else {
        var currentText := if Text in params && params[Text].Str? then params[Text].s else "";
        params := params[Text := Str(Strip(currentText + " " + area))];
        assert AreaRuleOf(filters) == AreaName(area);
      }
    } else {
      assert AreaRuleOf(filters) == NoArea;
    }
  }

  /** The specification leaves no freedom: two results for the same filters are equal. */
  lemma NormalizesUnique(f: map<string, string>, p: map<Key, Value>, q: map<Key, Value>)
    requires Normalizes(f, p) && Normalizes(f, q)
    ensures p == q
  {
    forall k | k in OutputKeys ensures (k in p <==> k in q) && (k in p ==> p[k] == q[k]) {
      if k == Text {
        match AreaRuleOf(f)
        case AreaName(_) =>
        case _ =>
      }
    }
    assert p.Keys == q.Keys;
  }

  /** Only the five known filter keys are read: an `employment` filter (or any other key) changes nothing. */
  lemma OtherKeysIgnored(f: map<string, string>, key: string, v: string, p: map<Key, Value>)
    requires key !in {"profession", "experience", "salary_min", "schedule", "area"}
    requires Normalizes(f, p)
    ensures Normalizes(f[key := v], p)
  {
    var g := f[key := v];
    assert forall k :: k != key ==> (Truthy(g, k) <==> Truthy(f, k)) && (k in f ==> g[k] == f[k]);
    assert AreaRuleOf(g) == AreaRuleOf(f);
  }

  /** The employment filter in particular never reaches the search parameters. */
  lemma EmploymentIgnored(f: map<string, string>, p: map<Key, Value>, q: map<Key, Value>)
    requires Normalizes(f, p)
    requires Normalizes(f - {"employment"}, q)
    ensures p == q
  {
    if "employment" in f {
      var g := f - {"employment"};
      assert f == g["employment" := f["employment"]];
      OtherKeysIgnored(g, "employment", f["employment"], q);
    } else {
      assert f - {"employment"} == f;
    }
    NormalizesUnique(f, p, q);
  }

  /** With no profession, a city name that has no surrounding blanks becomes the whole text. */
  lemma AreaNameAloneIsText(f: map<string, string>, p: map<Key, Value>)
    requires Normalizes(f, p)
    requires !Truthy(f, "profession") && AreaRuleOf(f).AreaName?
    requires !IsSpace(f["area"][0]) && !IsSpace(f["area"][|f["area"]| - 1])
    ensures p[Text] == Str(f["area"])
  {
    var name := f["area"];
    assert ("" + " " + name)[1..] == name;
    assert StripLeft(" " + name) == StripLeft(name);
    assert StripLeft(name) == name;
    StripUnspaced(name);
  }

  lemma ScheduleCodesNonEmpty(v: string)
    requires v in ScheduleCodes
    ensures ScheduleCodes[v] != ""
  {
  }

  /** An allow-listed experience value is passed through unchanged. */
  lemma ExperienceCodesAreIdentity(e: string)
    requires e in ExperienceCodes
    ensures ExperienceCodes[e] == e && e != ""
  {
  }
}

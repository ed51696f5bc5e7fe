/** Campaign targeting, evaluated twice: by payload decisioning
    (packages/go/subscribers/service.go:938-986) and by the audience query
    (packages/go/subscribers/clickhouse_repository.go:720-781), for the rules that
    packages/go/inventory/service.go:716-738 stores. */
module Targeting {
  import opened Text

  datatype Rules = Rules(
    countries: seq<string>,
    languages: seq<string>,
    deviceTypes: seq<string>,
    osNames: seq<string>,
    browserNames: seq<string>)

  datatype Snapshot = Snapshot(
    country: string,
    language: string,
    deviceType: string,
    osName: string,
    browserName: string)

  // ----- normalisation -----

  function NormalizedValues(values: seq<string>): seq<string> {
    if values == [] then []
    else
      var done := NormalizedValues(values[..|values| - 1]);
      var v := Normal(values[|values| - 1]);
      if v == "" || v in done then done else done + [v]
  }

  /** normalizeRuleValues, and normalizedTargetingValues of the audience query. */
  method NormalizeRuleValues(values: seq<string>) returns (normalized: seq<string>)
    ensures normalized == NormalizedValues(values)
  {
    normalized := [];
    var seen: set<string> := {};
    for i := 0 to |values|
      invariant normalized == NormalizedValues(values[..i])
      invariant forall v :: v in seen <==> v in normalized
    {
      assert values[..i + 1][..i] == values[..i];
      var value := Normal(values[i]);
      if value == "" || value in seen { continue; }
      seen := seen + {value};
      normalized := normalized + [value];
    }
    assert values[..|values|] == values;
  }

  predicate NormalValue(v: string) {
    v != "" && Normal(v) == v
  }

  ghost predicate NormalList(values: seq<string>) {
    && (forall v :: v in values ==> NormalValue(v))
    && (forall i, j :: 0 <= i < j < |values| ==> values[i] != values[j])
  }

  /** Normalisation keeps the non-blank values, once each and in normal form. */
  lemma {:induction false} NormalizationMeaning(values: seq<string>)
    ensures NormalList(NormalizedValues(values))
    ensures forall i :: 0 <= i < |values| && Normal(values[i]) != "" ==> Normal(values[i]) in NormalizedValues(values)
    ensures forall v :: v in NormalizedValues(values) ==> exists i :: 0 <= i < |values| && Normal(values[i]) == v
  {
    hide Normal;
    if values == [] {
    } else {
      var front, last := values[..|values| - 1], values[|values| - 1];
      NormalizationMeaning(front);
      NormalMeaning(last);
      var done := NormalizedValues(front);
      forall v | v in NormalizedValues(values) ensures exists i :: 0 <= i < |values| && Normal(values[i]) == v {
        if v in done {
          var i :| 0 <= i < |front| && Normal(front[i]) == v;
          assert values[i] == front[i];
        } else {
          assert Normal(values[|values| - 1]) == v;
        }
      }
      forall i | 0 <= i < |values| && Normal(values[i]) != "" ensures Normal(values[i]) in NormalizedValues(values) {
        if i < |front| { assert values[i] == front[i]; }
      }
    }
  }

  /** A second pass changes nothing. */
  lemma {:induction false} NormalizationStable(values: seq<string>)
    requires NormalList(values)
    ensures NormalizedValues(values) == values
  {
    hide Normal;
    if values == [] {
    } else {
      var front, last := values[..|values| - 1], values[|values| - 1];
      assert forall v :: v in front ==> v in values;
      NormalizationStable(front);
      assert last in values && last !in front;
      assert values == front + [last];
    }
  }

  // ----- payload decisioning -----

  predicate MatchesRuleValue(allowed: seq<string>, value: string) {
    allowed == [] || exists i :: 0 <= i < |allowed| && Normal(allowed[i]) == Normal(value)
  }

  predicate HasDash(s: string) {
    '-' in s
  }

  /** strings.Cut at the first dash: what stands before it. */
  function Base(s: string): (b: string)
    ensures b <= s && '-' !in b
    ensures HasDash(s) ==> |b| < |s| && s[|b|] == '-'
    ensures !HasDash(s) ==> b == s
  {
    if s == [] || s[0] == '-' then [] else [s[0]] + Base(s[1..])
  }

  predicate MatchesLanguage(allowed: seq<string>, value: string) {
    var v := Normal(value);
    MatchesRuleValue(allowed, v) || (HasDash(v) && MatchesRuleValue(allowed, Base(v)))
  }

  predicate MatchesTargeting(s: Snapshot, rules: Rules) {
    && MatchesRuleValue(rules.countries, s.country)
    && MatchesLanguage(rules.languages, s.language)
    && MatchesRuleValue(rules.deviceTypes, s.deviceType)
    && MatchesRuleValue(rules.osNames, s.osName)
    && MatchesRuleValue(rules.browserNames, s.browserName)
  }

  // ----- the audience query -----

  datatype Field = Country | DeviceType | OSName | BrowserName

  /** One conjunct of the compiled WHERE clause. */
  datatype Condition =
    | In(field: Field, values: seq<string>)
    | LanguageIn(values: seq<string>)

  function AppendTargetingIn(parts: seq<Condition>, field: Field, values: seq<string>): seq<Condition> {
    var normalized := NormalizedValues(values);
    if normalized == [] then parts else parts + [In(field, normalized)]
  }

  function AppendTargetingLanguage(parts: seq<Condition>, values: seq<string>): seq<Condition> {
    var normalized := NormalizedValues(values);
    if normalized == [] then parts else parts + [LanguageIn(normalized)]
  }

  function AudienceTargeting(rules: Rules): seq<Condition> {
    var p1 := AppendTargetingIn([], Country, rules.countries);
    var p2 := AppendTargetingLanguage(p1, rules.languages);
    var p3 := AppendTargetingIn(p2, DeviceType, rules.deviceTypes);
    var p4 := AppendTargetingIn(p3, OSName, rules.osNames);
    AppendTargetingIn(p4, BrowserName, rules.browserNames)
  }

  /** The columns of the subquery are lower-cased, not trimmed. */
  function Column(s: Snapshot, f: Field): string {
    Lower(match f
          case Country => s.country
          case DeviceType => s.deviceType
          case OSName => s.osName
          case BrowserName => s.browserName)
  }

  predicate LanguageListed(values: seq<string>, language: string) {
    exists i :: 0 <= i < |values| && (language == values[i] || values[i] + "-" <= language)
  }

  predicate Satisfies(s: Snapshot, c: Condition) {
    match c
    case In(field, values) => Column(s, field) in values
    case LanguageIn(values) => LanguageListed(values, Lower(s.language))
  }

  predicate AllOf(s: Snapshot, parts: seq<Condition>) {
    forall i :: 0 <= i < |parts| ==> Satisfies(s, parts[i])
  }

  /** The conjunction of the compiled conditions. */
  predicate InAudience(s: Snapshot, rules: Rules) {
    AllOf(s, AudienceTargeting(rules))
  }

  // ----- the two evaluators compared -----

  ghost predicate NormalRules(r: Rules) {
    NormalList(r.countries) && NormalList(r.languages) && NormalList(r.deviceTypes) &&
    NormalList(r.osNames) && NormalList(r.browserNames)
  }

  predicate TrimmedSnapshot(s: Snapshot) {
    Trimmed(s.country) && Trimmed(s.language) && Trimmed(s.deviceType) && Trimmed(s.osName) && Trimmed(s.browserName)
  }

  /** The compiled clause, one dimension at a time; empty dimensions compile to nothing. */
  lemma AudienceByDimension(s: Snapshot, rules: Rules)
    requires NormalRules(rules)
    ensures InAudience(s, rules) <==>
              && (rules.countries == [] || Column(s, Country) in rules.countries)
              && (rules.languages == [] || LanguageListed(rules.languages, Lower(s.language)))
              && (rules.deviceTypes == [] || Column(s, DeviceType) in rules.deviceTypes)
              && (rules.osNames == [] || Column(s, OSName) in rules.osNames)
              && (rules.browserNames == [] || Column(s, BrowserName) in rules.browserNames)
  {
    hide AppendTargetingIn, AppendTargetingLanguage, NormalList, Column, LanguageListed, Lower;
    var p1 := AppendTargetingIn([], Country, rules.countries);
    var p2 := AppendTargetingLanguage(p1, rules.languages);
    var p3 := AppendTargetingIn(p2, DeviceType, rules.deviceTypes);
    var p4 := AppendTargetingIn(p3, OSName, rules.osNames);
    AppendInMeaning(s, [], Country, rules.countries);
    AppendLanguageMeaning(s, p1, rules.languages);
    AppendInMeaning(s, p2, DeviceType, rules.deviceTypes);
    AppendInMeaning(s, p3, OSName, rules.osNames);
    AppendInMeaning(s, p4, BrowserName, rules.browserNames);
  }

  lemma AppendInMeaning(s: Snapshot, p: seq<Condition>, f: Field, values: seq<string>)
    requires NormalList(values)
    ensures AllOf(s, AppendTargetingIn(p, f, values)) <==>
              AllOf(s, p) && (values == [] || Column(s, f) in values)
  {
    hide NormalizedValues, NormalList, Column;
    NormalizationStable(values);
    AllOfAppend(s, p, AppendTargetingIn(p, f, values));
  }

  lemma AppendLanguageMeaning(s: Snapshot, p: seq<Condition>, values: seq<string>)
    requires NormalList(values)
    ensures AllOf(s, AppendTargetingLanguage(p, values)) <==>
              AllOf(s, p) && (values == [] || LanguageListed(values, Lower(s.language)))
  {
    hide NormalizedValues, NormalList, LanguageListed, Lower;
    NormalizationStable(values);
    AllOfAppend(s, p, AppendTargetingLanguage(p, values));
  }

  lemma AllOfAppend(s: Snapshot, p: seq<Condition>, q: seq<Condition>)
    requires q == p || (|q| == |p| + 1 && p == q[..|p|])
    ensures AllOf(s, q) <==> AllOf(s, p) && (|q| > |p| ==> Satisfies(s, q[|p|]))
  {
    if |q| == |p| + 1 && AllOf(s, p) && Satisfies(s, q[|p|]) {
      forall i | 0 <= i < |q| ensures Satisfies(s, q[i]) {
        if i < |p| { assert q[i] == p[i]; }
      }
    }
    if AllOf(s, q) {
      forall i | 0 <= i < |p| ensures Satisfies(s, p[i]) { assert q[i] == p[i]; }
    }
  }

  lemma ValueDimensionsAgree(allowed: seq<string>, value: string)
    requires NormalList(allowed)
    ensures MatchesRuleValue(allowed, value) <==> allowed == [] || Normal(value) in allowed
    ensures Trimmed(value) ==> Normal(value) == Lower(value)
  {
    hide Normal;
    NormalMeaning(value);
    forall i | 0 <= i < |allowed| ensures Normal(allowed[i]) == allowed[i] { assert allowed[i] in allowed; }
  }

  /** No white space directly before the first dash. */
  predicate CleanLanguage(language: string) {
    && Trimmed(language)
    && (HasDash(Lower(language)) ==> Trimmed(Base(Lower(language))))
  }

  /** The language dimension of payload decisioning in terms of list membership. */
  lemma LanguageMeaning(allowed: seq<string>, language: string)
    requires NormalList(allowed) && Trimmed(language) && allowed != []
    ensures var l := Lower(language);
            && (MatchesLanguage(allowed, language) <==>
                  l in allowed || (HasDash(l) && Normal(Base(l)) in allowed))
            && Trimmed(l) && IsLower(l) && IsLower(Base(l))
            && (Trimmed(Base(l)) <==> Normal(Base(l)) == Base(l))
  {
    hide Normal, Lower, Base;
    var l := Lower(language);
    NormalMeaning(language);
    NormalMeaning(l);
    ValueDimensionsAgree(allowed, l);
    ValueDimensionsAgree(allowed, Base(l));
    NormalMeaning(Base(l));
    assert IsLower(Base(l)) by {
      forall i | 0 <= i < |Base(l)| ensures LowerChar(Base(l)[i]) == Base(l)[i] { assert Base(l)[i] == l[i]; }
    }
  }

  /** Whoever may be shown a campaign is in its audience, for clean languages. */
  lemma LanguageImplies(allowed: seq<string>, language: string)
    requires NormalList(allowed) && allowed != [] && CleanLanguage(language)
    requires MatchesLanguage(allowed, language)
    ensures LanguageListed(allowed, Lower(language))
  {
    hide Normal, Lower, Base, MatchesLanguage, NormalList;
    var l := Lower(language);
    LanguageMeaning(allowed, language);
    if l in allowed {
      var i :| 0 <= i < |allowed| && allowed[i] == l;
    } else {
      var i :| 0 <= i < |allowed| && allowed[i] == Base(l);
      assert allowed[i] + "-" == l[..|Base(l)| + 1];
    }
  }

  /** For a trimmed language, matching implies being listed whatever the rules are, if and only
      if no white space stands before its first dash. */
  lemma LanguageImpliesExactlyWhen(language: string)
    requires Trimmed(language)
    ensures (forall allowed :: NormalList(allowed) && allowed != [] && MatchesLanguage(allowed, language) ==>
               LanguageListed(allowed, Lower(language)))
            <==> CleanLanguage(language)
  {
    hide MatchesLanguage, LanguageListed, Lower, CleanLanguage;
    if CleanLanguage(language) {
      forall allowed | NormalList(allowed) && allowed != [] && MatchesLanguage(allowed, language)
        ensures LanguageListed(allowed, Lower(language))
      {
        LanguageImplies(allowed, language);
      }
    } else {
      UncleanLanguageSplits(language);
      assert [Normal(Base(Lower(language)))] != [];
    }
  }

  /** A language such as "en -us" is shown a campaign for "en" without being in its audience. */
  lemma UncleanLanguageSplits(language: string)
    requires Trimmed(language) && !CleanLanguage(language)
    ensures var allowed := [Normal(Base(Lower(language)))];
            && NormalList(allowed)
            && MatchesLanguage(allowed, language)
            && !LanguageListed(allowed, Lower(language))
  {
    hide Lower, Base, MatchesLanguage, Normal, Trim;
    var l := Lower(language);
    var b := Base(l);
    LowerMeaning(language);
    var t := Trim(b);
    TrimTrims(b);
    NormalMeaning(b);
    assert IsLower(b) by {
      forall i | 0 <= i < |b| ensures LowerChar(b[i]) == b[i] { assert b[i] == l[i]; }
    }
    TrimOfTail(b, l);
    assert IsLower(t) by {
      forall i | 0 <= i < |t| ensures LowerChar(t[i]) == t[i] { assert t[i] == b[i]; }
    }
    NormalOfLower(b);
    NormalMeaning(t);
    assert NormalList([t]);
    LanguageMeaning([t], language);
    assert l[|t|] == b[|t|] != '-';
  }

  lemma NormalOfLower(b: string)
    requires IsLower(Trim(b))
    ensures Normal(b) == Trim(b)
  {
    LowerMeaning(Trim(b));
  }

  /** What stands before the first dash of a trimmed text can only have white space behind it. */
  lemma TrimOfTail(b: string, l: string)
    requires Trimmed(l) && b <= l && !Trimmed(b)
    ensures var t := Trim(b);
            t != "" && t <= b && |t| < |b|
  {
    assert b[0] == l[0];
    assert TrimLeft(b) == b;
    if TrimRight(b) == "" {
      TrimRightEmpty(b);
    }
  }

  lemma TrimRightEmpty(b: string)
    requires TrimRight(b) == "" && b != ""
    ensures IsSpace(b[0])
  {}

  ghost predicate BasesListed(allowed: seq<string>) {
    forall v :: v in allowed && HasDash(v) && Trimmed(Base(v)) ==> Base(v) in allowed
  }

  /** The converse, for one language. */
  lemma LanguageConverse(allowed: seq<string>, language: string)
    requires NormalList(allowed) && allowed != [] && CleanLanguage(language) && BasesListed(allowed)
    requires LanguageListed(allowed, Lower(language))
    ensures MatchesLanguage(allowed, language)
  {
    hide Normal, Lower, Base, MatchesLanguage, NormalList;
    var l := Lower(language);
    LanguageMeaning(allowed, language);
    var i :| 0 <= i < |allowed| && (l == allowed[i] || allowed[i] + "-" <= l);
    var v := allowed[i];
    assert v in allowed;
    if v + "-" <= l {
      assert v == l[..|v|] && l[|v|] == '-';
      BaseOfPrefix(v, l);
    }
  }

  lemma {:induction false} BaseOfPrefix(v: string, l: string)
    requires |v| < |l| && v == l[..|v|] && l[|v|] == '-'
    ensures Base(l) == Base(v)
  {
    if v == "" {
    } else {
      assert v[1..] == l[1..][..|v| - 1];
      assert v[0] == l[0];
      BaseOfPrefix(v[1..], l[1..]);
    }
  }

  /** The language dimension means the same in both evaluators, for every clean language, if and
      only if every listed variant (such as zh-hant) comes with its base language. */
  lemma LanguagesAgreeExactlyWhen(allowed: seq<string>)
    requires NormalList(allowed) && allowed != []
    ensures (forall language :: CleanLanguage(language) ==>
               (MatchesLanguage(allowed, language) <==> LanguageListed(allowed, Lower(language))))
            <==> BasesListed(allowed)
  {
    hide MatchesLanguage, LanguageListed, Lower, CleanLanguage, NormalList;
    if BasesListed(allowed) {
      forall language | CleanLanguage(language)
        ensures MatchesLanguage(allowed, language) <==> LanguageListed(allowed, Lower(language))
      {
        if MatchesLanguage(allowed, language) { LanguageImplies(allowed, language); }
        if LanguageListed(allowed, Lower(language)) { LanguageConverse(allowed, language); }
      }
    } else {
      var v :| v in allowed && HasDash(v) && Trimmed(Base(v)) && Base(v) !in allowed;
      var language := VariantOf(allowed, v);
    }
  }

  /** A longer variant of a listed variant whose base is not listed. */
  lemma VariantOf(allowed: seq<string>, v: string) returns (language: string)
    requires NormalList(allowed) && v in allowed
    requires HasDash(v) && Trimmed(Base(v)) && Base(v) !in allowed
    ensures CleanLanguage(language)
    ensures LanguageListed(allowed, Lower(language)) && !MatchesLanguage(allowed, language)
  {
    hide Normal, Lower, Base, MatchesLanguage;
    var n := LongerThanAll(allowed);
    language := v + "-x" + seq(n, _ => 'x');
    NormalMeaning(v);
    assert IsLower(language) by {
      forall i | 0 <= i < |language| ensures LowerChar(language[i]) == language[i] {
        if i < |v| { assert language[i] == v[i]; }
      }
    }
    LowerMeaning(language);
    assert Trimmed(language) by { assert language[0] == v[0] && language[|language| - 1] == 'x'; }
    assert v == language[..|v|] && language[|v|] == '-';
    BaseOfPrefix(v, language);
    assert '-' in language;
    var i :| 0 <= i < |allowed| && allowed[i] == v;
    assert allowed[i] + "-" <= language;
    assert language !in allowed;
    LanguageMeaning(allowed, language);
  }

  lemma {:induction false} LongerThanAll(values: seq<string>) returns (n: nat)
    ensures forall v :: v in values ==> |v| <= n
  {
    if values == [] {
      n := 0;
    } else {
      n := LongerThanAll(values[..|values| - 1]);
      var last := values[|values| - 1];
      assert forall v :: v in values ==> v in values[..|values| - 1] || v == last;
      n := if |last| > n then |last| else n;
    }
  }

  /** The value dimensions of a trimmed subscriber mean the same in both evaluators. */
  lemma DimensionsAgree(s: Snapshot, rules: Rules)
    requires NormalRules(rules) && TrimmedSnapshot(s)
    ensures MatchesRuleValue(rules.countries, s.country) <==>
              rules.countries == [] || Column(s, Country) in rules.countries
    ensures MatchesRuleValue(rules.deviceTypes, s.deviceType) <==>
              rules.deviceTypes == [] || Column(s, DeviceType) in rules.deviceTypes
    ensures MatchesRuleValue(rules.osNames, s.osName) <==>
              rules.osNames == [] || Column(s, OSName) in rules.osNames
    ensures MatchesRuleValue(rules.browserNames, s.browserName) <==>
              rules.browserNames == [] || Column(s, BrowserName) in rules.browserNames
  {
    hide MatchesRuleValue, NormalList, Lower, Normal;
    ValueDimensionsAgree(rules.countries, s.country);
    ValueDimensionsAgree(rules.deviceTypes, s.deviceType);
    ValueDimensionsAgree(rules.osNames, s.osName);
    ValueDimensionsAgree(rules.browserNames, s.browserName);
  }

  /** Query compilation: a subscriber whom payload decisioning accepts is in the audience. */
  lemma MatchImpliesAudience(s: Snapshot, rules: Rules)
    requires NormalRules(rules) && TrimmedSnapshot(s) && CleanLanguage(s.language)
    requires MatchesTargeting(s, rules)
    ensures InAudience(s, rules)
  {
    hide InAudience, MatchesRuleValue, MatchesLanguage, LanguageListed, Column, NormalList, Lower;
    AudienceByDimension(s, rules);
    DimensionsAgree(s, rules);
    if rules.languages != [] { LanguageImplies(rules.languages, s.language); }
  }

  /** Query compilation preserves meaning when every language variant is listed with its base;
      in particular when no language rule contains a dash. */
  lemma MatchEqualsAudience(s: Snapshot, rules: Rules)
    requires NormalRules(rules) && TrimmedSnapshot(s) && CleanLanguage(s.language)
    requires BasesListed(rules.languages)
    ensures MatchesTargeting(s, rules) <==> InAudience(s, rules)
  {
    hide InAudience, MatchesRuleValue, LanguageListed, Column, NormalList, Lower, BasesListed;
    AudienceByDimension(s, rules);
    DimensionsAgree(s, rules);
    UnrestrictedLanguage(s.language);
    if rules.languages != [] {
      if MatchesTargeting(s, rules) {
        LanguageImplies(rules.languages, s.language);
      } else if InAudience(s, rules) {
        LanguageConverse(rules.languages, s.language);
      }
    }
  }

  lemma UnrestrictedLanguage(language: string)
    ensures MatchesLanguage([], language)
  {}

  /** Without stored normal form the two evaluators disagree: a blank rule beside another one
      matches a subscriber with a blank country, whom the query drops. */
  lemma BlankRulesDisagree(s: Snapshot, v: string)
    requires s.country == "" && NormalValue(v)
    ensures var rules := Rules(["", v], [], [], [], []);
            MatchesTargeting(s, rules) && !InAudience(s, rules)
  {
    var rules := Rules(["", v], [], [], [], []);
    UnrestrictedLanguage(s.language);
    NormalMeaning("");
    hide Normal, MatchesLanguage, Lower;
    assert Normal(rules.countries[0]) == Normal(s.country);
    assert NormalizedValues(["", v]) == [v] by {
      assert ["", v][..1] == [""] && [""][..0] == [];
      assert NormalizedValues([""]) == [];
    }
    assert AudienceTargeting(rules) == [In(Country, [v])] by { assert NormalizedValues([]) == []; }
    assert !Satisfies(s, AudienceTargeting(rules)[0]) by { assert |Column(s, Country)| == 0; }
  }

  // ----- two ways to lower a letter -----

  // Above, one Lower stands for strings.ToLower, which maps every letter of Unicode, and for the
  // query's lower(), which maps the letters A to Z.

  /** A value lowered letter by letter. */
  function Folded(fold: char -> char, value: string): (r: string)
    ensures |r| == |value| && forall i :: 0 <= i < |r| ==> r[i] == fold(value[i])
  {
    seq(|value|, i requires 0 <= i < |value| => fold(value[i]))
  }

  /** The values of a stored rule are lowered. */
  ghost predicate FoldedList(fold: char -> char, values: seq<string>) {
    forall i :: 0 <= i < |values| ==> Folded(fold, values[i]) == values[i]
  }

  /** Both evaluators find a value in the same stored rules exactly when every letter of the value is
      lowered alike, which a value without capitals beyond A to Z is. */
  lemma CaseAgreesExactlyWhen(fold: char -> char, value: string)
    requires forall c :: fold(fold(c)) == fold(c)
    ensures (forall values :: FoldedList(fold, values) ==> (Folded(fold, value) in values <==> Lower(value) in values))
            <==> forall i :: 0 <= i < |value| ==> fold(value[i]) == LowerChar(value[i])
  {
    hide Lower;
    LowerAt(value);
    if forall i :: 0 <= i < |value| ==> fold(value[i]) == LowerChar(value[i]) {
      assert Folded(fold, value) == Lower(value);
    } else {
      var i :| 0 <= i < |value| && fold(value[i]) != LowerChar(value[i]);
      assert Folded(fold, value)[i] != Lower(value)[i];
      var values := [Folded(fold, value)];
      assert FoldedList(fold, values) by {
        assert Folded(fold, values[0]) == values[0];
      }
      assert Folded(fold, value) in values && Lower(value) !in values;
    }
  }

  // Payload decisioning with any way to lower letters; with Lower it is MatchesTargeting.

  predicate ValueMatches(fold: char -> char, allowed: seq<string>, value: string) {
    allowed == [] || exists i :: 0 <= i < |allowed| && Folded(fold, Trim(allowed[i])) == Folded(fold, Trim(value))
  }

  predicate LanguageMatches(fold: char -> char, allowed: seq<string>, value: string) {
    var v := Folded(fold, Trim(value));
    ValueMatches(fold, allowed, v) || (HasDash(v) && ValueMatches(fold, allowed, Base(v)))
  }

  predicate Accepts(fold: char -> char, s: Snapshot, rules: Rules) {
    && ValueMatches(fold, rules.countries, s.country)
    && LanguageMatches(fold, rules.languages, s.language)
    && ValueMatches(fold, rules.deviceTypes, s.deviceType)
    && ValueMatches(fold, rules.osNames, s.osName)
    && ValueMatches(fold, rules.browserNames, s.browserName)
  }

  lemma FoldedIsLower(v: string)
    ensures Folded(LowerChar, v) == Lower(v)
  {
    LowerAt(v);
  }

  lemma ValueMatchesIsMatch(allowed: seq<string>, value: string)
    ensures ValueMatches(LowerChar, allowed, value) <==> MatchesRuleValue(allowed, value)
  {
    hide Trim, Lower, Folded;
    FoldedIsLower(Trim(value));
    forall i | 0 <= i < |allowed| { FoldedIsLower(Trim(allowed[i])); }
  }

  lemma AcceptsIsMatch(s: Snapshot, rules: Rules)
    ensures Accepts(LowerChar, s, rules) <==> MatchesTargeting(s, rules)
  {
    hide ValueMatches, MatchesRuleValue, Trim, Lower, Folded, Base;
    ValueMatchesIsMatch(rules.countries, s.country);
    ValueMatchesIsMatch(rules.deviceTypes, s.deviceType);
    ValueMatchesIsMatch(rules.osNames, s.osName);
    ValueMatchesIsMatch(rules.browserNames, s.browserName);
    FoldedIsLower(Trim(s.language));
    ValueMatchesIsMatch(rules.languages, Normal(s.language));
    ValueMatchesIsMatch(rules.languages, Base(Normal(s.language)));
  }

  /** A country that is written with a capital E acute, and a rule with the small letter: a Unicode
      lowering matches them, and the query drops the subscriber. */
  lemma CapitalSplits(fold: char -> char, s: Snapshot)
    requires fold('\U{C9}') == fold('\U{E9}') == '\U{E9}' && s.country == "\U{C9}"
    ensures var rules := Rules(["\U{E9}"], [], [], [], []);
            Accepts(fold, s, rules) && !InAudience(s, rules)
  {
    hide InAudience, Accepts;
    CapitalMatches(fold, s);
    CapitalDropped(s);
  }

  lemma CapitalMatches(fold: char -> char, s: Snapshot)
    requires fold('\U{C9}') == fold('\U{E9}') == '\U{E9}' && s.country == "\U{C9}"
    ensures Accepts(fold, s, Rules(["\U{E9}"], [], [], [], []))
  {
    hide Trim, Lower, LanguageMatches;
    TrimTrims("\U{C9}");
    TrimTrims("\U{E9}");
    var allowed := ["\U{E9}"];
    assert Folded(fold, Trim(allowed[0])) == Folded(fold, Trim(s.country));
    assert ValueMatches(fold, allowed, s.country);
    NothingListed(fold, s.language);
  }

  lemma CapitalDropped(s: Snapshot)
    requires s.country == "\U{C9}"
    ensures !InAudience(s, Rules(["\U{E9}"], [], [], [], []))
  {
    hide Trim, Lower;
    var rules := Rules(["\U{E9}"], [], [], [], []);
    TrimTrims("\U{E9}");
    LowerAt("\U{C9}");
    LowerAt("\U{E9}");
    assert Normal("\U{E9}") == "\U{E9}" && Lower("\U{C9}") == "\U{C9}";
    assert NormalizedValues(["\U{E9}"]) == ["\U{E9}"] by {
      assert ["\U{E9}"][..0] == [] && NormalizedValues([]) == [];
    }
    assert AudienceTargeting(rules) == [In(Country, ["\U{E9}"])] by { assert NormalizedValues([]) == []; }
    assert !Satisfies(s, AudienceTargeting(rules)[0]);
  }

  lemma NothingListed(fold: char -> char, language: string)
    ensures LanguageMatches(fold, [], language)
  {}
}

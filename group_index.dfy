/**
 * Helper rules of the issue (group) list endpoints: the stats period, the
 * query parameters of a search request, the advanced-search gate, and the
 * status and bookkeeping steps of bulk group deletion.
 */
module GroupIndex {
  import opened Wrappers

  // ---------------------------------------------------------------------------
  // Stats period
  // ---------------------------------------------------------------------------

  datatype StatsPeriod<T> = StatsPeriod(period: Option<string>, start: Option<T>, end: Option<T>)

  /**
   * An absent period defaults to "24h", an empty one disables stats, and
   * the start and end bounds are kept only for the "auto" period.
   */
  function CalculateStatsPeriod<T>(statsPeriod: Option<string>, start: Option<T>, end: Option<T>): (r: StatsPeriod<T>)
    ensures r.period.None? <==> statsPeriod == Some("")
    ensures r.period.Some? && statsPeriod.Some? ==> r.period == statsPeriod
    ensures r.start.Some? || r.end.Some? ==> r.period == Some("auto")
    ensures r.period == Some("auto") ==> r.start == start && r.end == end
    ensures r.period != Some("auto") ==> r.start.None? && r.end.None?
  {
    var period := if statsPeriod.None? then Some("24h") else if statsPeriod == Some("") then None else statsPeriod;
    if period == Some("auto") then StatsPeriod(period, start, end) else StatsPeriod(period, None, None)
  }

  /** No period: the "24h" default, without bounds. */
  lemma StatsPeriodDefault<T>(start: Option<T>, end: Option<T>)
    ensures CalculateStatsPeriod(None, start, end) == StatsPeriod(Some("24h"), None, None)
  {
  }

  /** An empty period disables stats, without bounds. */
  lemma StatsPeriodDisabled<T>(start: Option<T>, end: Option<T>)
    ensures CalculateStatsPeriod(Some(""), start, end) == StatsPeriod(None, None, None)
  {
  }

  /** "auto" passes the bounds through; any other value is kept and drops them. */
  lemma StatsPeriodGiven<T>(period: string, start: Option<T>, end: Option<T>)
    requires period != ""
    ensures CalculateStatsPeriod(Some(period), start, end)
         == if period == "auto" then StatsPeriod(Some(period), start, end) else StatsPeriod(Some(period), None, None)
  {
  }

  // ---------------------------------------------------------------------------
  // Python's str.strip and int() on ASCII text
  // ---------------------------------------------------------------------------

  /** The ASCII characters Python treats as whitespace. */
  predicate IsSpace(c: char) {
    c == ' ' || c == '\t' || c == '\n' || c == '\r' || c == '\U{000B}' || c == '\U{000C}'
    || c == '\U{001C}' || c == '\U{001D}' || c == '\U{001E}' || c == '\U{001F}'
  }

  predicate IsDigit(c: char) {
    '0' <= c <= '9'
  }

  /** The first position at or after `i` that does not hold whitespace. */
  function SkipSpaces(s: string, i: nat): (e: nat)
    requires i <= |s|
    ensures i <= e <= |s| && (forall k :: i <= k < e ==> IsSpace(s[k])) && (e < |s| ==> !IsSpace(s[e]))
    decreases |s| - i
  {
    if i < |s| && IsSpace(s[i]) then SkipSpaces(s, i + 1) else i
  }

  /** The end of `s[lo..j]` once the whitespace before `j` is dropped. */
  function TrimEnd(s: string, lo: nat, j: nat): (e: nat)
    requires lo <= j <= |s|
    ensures lo <= e <= j && (forall k :: e <= k < j ==> IsSpace(s[k])) && (e > lo ==> !IsSpace(s[e - 1]))
  {
    if j > lo && IsSpace(s[j - 1]) then TrimEnd(s, lo, j - 1) else j
  }

  /** `str.strip()`: `s` without the whitespace at either end. */
  function Strip(s: string): (r: string)
    ensures |r| <= |s|
    ensures |r| > 0 ==> !IsSpace(r[0]) && !IsSpace(r[|r| - 1])
  {
    var i := SkipSpaces(s, 0);
    s[i..TrimEnd(s, i, |s|)]
  }

  /** Strip removes whitespace and nothing else, and only at the two ends. */
  lemma StripIsTrim(s: string)
    ensures exists i, j :: (0 <= i <= j <= |s| && Strip(s) == s[i..j]
      && (forall k :: 0 <= k < i ==> IsSpace(s[k])) && (forall k :: j <= k < |s| ==> IsSpace(s[k])))
  {
    var i := SkipSpaces(s, 0);
    var j := TrimEnd(s, i, |s|);
    assert Strip(s) == s[i..j];
  }

  /** Text without whitespace at either end is left as it is by Strip. */
  lemma StripUnpadded(s: string)
    requires |s| > 0 && !IsSpace(s[0]) && !IsSpace(s[|s| - 1])
    ensures Strip(s) == s
  {
    assert s[0..|s|] == s;
  }

  /** Digits, optionally separated by single underscores: `1_000`. */
  predicate IsDigitGroups(b: string) {
    && |b| > 0 && IsDigit(b[0]) && IsDigit(b[|b| - 1])
    && (forall i :: 0 <= i < |b| ==> IsDigit(b[i]) || b[i] == '_')
    && (forall i :: 0 <= i < |b| - 1 ==> b[i] != '_' || b[i + 1] != '_')
  }

  /** An optional sign followed by digit groups: what int() accepts after stripping. */
  predicate IsIntLiteral(t: string) {
    if |t| > 0 && (t[0] == '+' || t[0] == '-') then IsDigitGroups(t[1..]) else IsDigitGroups(t)
  }

  function DigitValue(c: char): nat
    requires IsDigit(c)
  {
    (c as int - '0' as int) as nat
  }

  /** The decimal value of a string of digits, read left to right. */
  function DigitsValue(d: string): nat
    requires forall k :: 0 <= k < |d| ==> IsDigit(d[k])
  {
    if d == [] then 0 else 10 * DigitsValue(d[..|d| - 1]) + DigitValue(d[|d| - 1])
  }

  /** The digits of `b`, underscores dropped, in their original order. */
  function DropUnderscores(b: string): (d: string)
    requires forall i :: 0 <= i < |b| ==> IsDigit(b[i]) || b[i] == '_'
    ensures forall k :: 0 <= k < |d| ==> IsDigit(d[k])
  {
    if b == [] then []
    else DropUnderscores(b[..|b| - 1]) + (if b[|b| - 1] == '_' then [] else [b[|b| - 1]])
  }

  /** The value of digit groups. */
  function GroupsValue(b: string): nat
    requires IsDigitGroups(b)
  {
    DigitsValue(DropUnderscores(b))
  }

  /**
   * `int(s)` on ASCII text: surrounding whitespace is ignored, an optional
   * sign may lead, and underscores may separate digits; anything else
   * raises ValueError, here None.
   */
  function ParseInt(s: string): (r: Option<int>)
    ensures r.Some? <==> IsIntLiteral(Strip(s))
  {
    var t := Strip(s);
    if |t| > 0 && (t[0] == '+' || t[0] == '-') then
      if IsDigitGroups(t[1..]) then
        var n: int := GroupsValue(t[1..]);
        Some(if t[0] == '-' then -n else n)
      else None
    else if IsDigitGroups(t) then Some(GroupsValue(t))
    else None
  }

  function DigitChar(n: nat): (c: char)
    requires n < 10
    ensures IsDigit(c) && DigitValue(c) == n
  {
    ('0' as int + n) as char
  }

  /** Python's `str(n)` for a natural number. */
  function NatToString(n: nat): (s: string)
    ensures |s| > 0 && forall k :: 0 <= k < |s| ==> IsDigit(s[k])
  {
    if n < 10 then [DigitChar(n)] else NatToString(n / 10) + [DigitChar(n % 10)]
  }

  /** Python's `str(n)`. */
  function IntToString(n: int): string {
    if n < 0 then "-" + NatToString(-n) else NatToString(n)
  }

  lemma {:induction false} NatToStringValue(n: nat)
    ensures DigitsValue(NatToString(n)) == n
  {
    var s := NatToString(n);
    if n >= 10 {
      NatToStringValue(n / 10);
      assert s[..|s| - 1] == NatToString(n / 10);
    }
  }

  lemma {:induction false} DropUnderscoresOfDigits(d: string)
    requires forall k :: 0 <= k < |d| ==> IsDigit(d[k])
    ensures DropUnderscores(d) == d
  {
    if d != [] {
      DropUnderscoresOfDigits(d[..|d| - 1]);
      assert d[..|d| - 1] + [d[|d| - 1]] == d;
    }
  }

  /** The digits of `str(n)` for a natural `n` read back as `n`. */
  lemma NatToStringGroups(m: nat)
    ensures IsDigitGroups(NatToString(m)) && GroupsValue(NatToString(m)) == m
  {
    NatToStringValue(m);
    DropUnderscoresOfDigits(NatToString(m));
  }

  /** `str(m)` of a natural `m` parses back to `m`. */
  lemma ParseIntOfNatString(m: nat)
    ensures ParseInt(NatToString(m)) == Some(m)
  {
    var s := NatToString(m);
    NatToStringGroups(m);
    assert IsDigit(s[0]) && IsDigit(s[|s| - 1]);
    StripUnpadded(s);
  }

  /** `str(-m)` of a positive `m` parses back to `-m`. */
  lemma ParseIntOfNegativeString(m: nat)
    requires m > 0
    ensures ParseInt("-" + NatToString(m)) == Some(-(m as int))
  {
    var s := "-" + NatToString(m);
    NatToStringGroups(m);
    assert s[1..] == NatToString(m);
    assert IsDigit(s[|s| - 1]);
    StripUnpadded(s);
  }

  /** A limit written by `str(n)` parses back to `n`. */
  lemma ParseIntRoundTrip(n: int)
    ensures ParseInt(IntToString(n)) == Some(n)
  {
    if n < 0 {
      ParseIntOfNegativeString(-n);
    } else {
      ParseIntOfNatString(n);
    }
  }

  /** Text with a character that is not whitespace, a sign, a digit or an underscore is not an integer. */
  lemma ParseIntRejectsForeignCharacter(s: string, k: nat)
    requires k < |s| && !IsSpace(s[k]) && !IsDigit(s[k]) && s[k] != '_' && s[k] != '+' && s[k] != '-'
    ensures ParseInt(s).None?
  {
    var i := SkipSpaces(s, 0);
    var j := TrimEnd(s, i, |s|);
    var t := Strip(s);
    assert t == s[i..j];
    assert t[k - i] == s[k];
    if |t| > 0 && (t[0] == '+' || t[0] == '-') {
      assert t[1..][k - i - 1] == s[k];
    }
  }

  // ---------------------------------------------------------------------------
  // The advanced-search gate
  // ---------------------------------------------------------------------------

  /** The parts of a parsed search filter the gate looks at. */
  datatype SearchFilter = SearchFilter(isNegation: bool, valueIsWildcard: bool)

  /** The conditions that make a filter an advanced search. */
  datatype FeatureCondition = IsNegation | IsWildcard

  predicate Holds(condition: FeatureCondition, f: SearchFilter) {
    match condition
    case IsNegation => f.isNegation
    case IsWildcard => f.valueIsWildcard
  }

  /** The advanced-search features, in the order they are checked, with their names. */
  const AdvancedSearchFeatures: seq<(FeatureCondition, string)> :=
    [(IsNegation, "negative search"), (IsWildcard, "wildcard search")]

  predicate IsAdvanced(f: SearchFilter) {
    f.isNegation || f.valueIsWildcard
  }

  /** The fixed start of the refusal message (written in pieces so that its letters unfold). */
  const AdvancedSearchPrefix: string := "You need access " + "to the advanced search feature " + "to use "

  /** The refusal message: the fixed sentence followed by the feature's name. */
  function AdvancedSearchMessage(featureName: string): (msg: string)
    ensures |msg| == |AdvancedSearchPrefix| + |featureName|
    ensures msg[..|AdvancedSearchPrefix|] == AdvancedSearchPrefix && msg[|AdvancedSearchPrefix|..] == featureName
  {
    AdvancedSearchPrefix + featureName
  }

  /**
   * A filter is advanced exactly when some condition of the feature list
   * holds for it; the list checks negation first and names each feature.
   */
  lemma AdvancedSearchFeaturesCover(f: SearchFilter)
    ensures IsAdvanced(f) <==> exists k :: 0 <= k < |AdvancedSearchFeatures| && Holds(AdvancedSearchFeatures[k].0, f)
    ensures Holds(AdvancedSearchFeatures[0].0, f) <==> f.isNegation
    ensures Holds(AdvancedSearchFeatures[1].0, f) <==> f.valueIsWildcard
    ensures AdvancedSearchFeatures[0].1 == "negative search" && AdvancedSearchFeatures[1].1 == "wildcard search"
  {
    if f.valueIsWildcard {
      assert Holds(AdvancedSearchFeatures[1].0, f);
    }
    if f.isNegation {
      assert Holds(AdvancedSearchFeatures[0].0, f);
    }
  }

  /** The name of the first feature that `f` uses, checking the features in order. */
  function FirstFeatureOf(f: SearchFilter): (name: Option<string>)
    ensures name.None? <==> !IsAdvanced(f)
    ensures f.isNegation ==> name == Some("negative search")
    ensures !f.isNegation && f.valueIsWildcard ==> name == Some("wildcard search")
  {
    if Holds(AdvancedSearchFeatures[0].0, f) then Some(AdvancedSearchFeatures[0].1)
    else if Holds(AdvancedSearchFeatures[1].0, f) then Some(AdvancedSearchFeatures[1].1)
    else None
  }

  /** The feature named by the gate: that of the first advanced filter, scanning in order. */
  function FirstAdvancedFeature(filters: seq<SearchFilter>): (name: Option<string>)
    ensures name.None? <==> forall i :: 0 <= i < |filters| ==> !IsAdvanced(filters[i])
    ensures name.Some? ==> exists i :: (0 <= i < |filters| && IsAdvanced(filters[i])
      && (forall j :: 0 <= j < i ==> !IsAdvanced(filters[j]))
      && name == FirstFeatureOf(filters[i]))
  {
    if filters == [] then None
    else if IsAdvanced(filters[0]) then FirstFeatureOf(filters[0])
    else
      var rest := FirstAdvancedFeature(filters[1..]);
      assert rest.Some? ==> exists i :: (1 <= i < |filters| && IsAdvanced(filters[i])
        && (forall j :: 0 <= j < i ==> !IsAdvanced(filters[j]))
        && rest == FirstFeatureOf(filters[i])) by {
        if rest.Some? {
          var i :| 0 <= i < |filters[1..]| && IsAdvanced(filters[1..][i])
            && (forall j :: 0 <= j < i ==> !IsAdvanced(filters[1..][j]))
            && rest == FirstFeatureOf(filters[1..][i]);
          assert filters[i + 1] == filters[1..][i];
          forall j | 0 <= j < i + 1 ensures !IsAdvanced(filters[j]) {
            if j > 0 { assert filters[j] == filters[1..][j - 1]; }
          }
        }
      }
      rest
  }

  /**
   * `validate_search_filter_permissions`: nothing to check for an
   * organization with advanced search; otherwise the error for the first
   * filter, in order, that uses an advanced feature, naming the first such
   * feature, or no error at all.
   */
  method ValidateSearchFilterPermissions(hasAdvancedSearch: bool, searchFilters: seq<SearchFilter>)
    returns (error: Option<string>)
    ensures hasAdvancedSearch ==> error.None?
    ensures !hasAdvancedSearch ==> (error.None? <==> forall i :: 0 <= i < |searchFilters| ==> !IsAdvanced(searchFilters[i]))
    ensures error == if hasAdvancedSearch || FirstAdvancedFeature(searchFilters).None? then None
                     else Some(AdvancedSearchMessage(FirstAdvancedFeature(searchFilters).value))
  {
    if hasAdvancedSearch {
      return None;
    }
    var i := 0;
    while i < |searchFilters|
      invariant 0 <= i <= |searchFilters|
      invariant forall j :: 0 <= j < i ==> !IsAdvanced(searchFilters[j])
    {
      var searchFilter := searchFilters[i];
      var k := 0;
      while k < |AdvancedSearchFeatures|
        invariant 0 <= k <= |AdvancedSearchFeatures|
        invariant forall m :: 0 <= m < k ==> !Holds(AdvancedSearchFeatures[m].0, searchFilter)
      {
        var (featureCondition, featureName) := AdvancedSearchFeatures[k];
        if Holds(featureCondition, searchFilter) {
          FirstAdvancedAt(searchFilters, i);
          return Some(AdvancedSearchMessage(featureName));
        }
        k := k + 1;
      }
      assert !Holds(AdvancedSearchFeatures[0].0, searchFilter) && !Holds(AdvancedSearchFeatures[1].0, searchFilter);
      i := i + 1;
    }
    return None;
  }

  /** The first advanced filter is the one FirstAdvancedFeature reports. */
  lemma {:induction false} FirstAdvancedAt(filters: seq<SearchFilter>, i: nat)
    requires i < |filters| && IsAdvanced(filters[i])
    requires forall j :: 0 <= j < i ==> !IsAdvanced(filters[j])
    ensures FirstAdvancedFeature(filters) == FirstFeatureOf(filters[i])
  {
    if i > 0 {
      FirstAdvancedAt(filters[1..], i - 1);
    }
  }

  // ---------------------------------------------------------------------------
  // Query parameters of a search request
  // ---------------------------------------------------------------------------

  const DefaultQuery: string := "is:unresolved"

  /** The query-string parameters of a request (the last value of each). */
  type QueryDict = map<string, string>

  /** The search keyword arguments built from a request. */
  datatype QueryParams = QueryParams(sortBy: string, limit: Option<int>, searchFilters: Option<seq<SearchFilter>>)

  /** The ValidationErrors a request's parameters can raise. */
  datatype QueryError = InvalidLimit | SearchParseError(detail: string) | AdvancedSearchRequired(featureName: string)

  const ParseErrorPrefix: string := "Error parsing " + "search query: "

  /** The message each ValidationError carries. */
  function Message(e: QueryError): (msg: string)
    ensures |msg| > 0 && msg[0] == LeadLetter(e)
    ensures e.InvalidLimit? ==> msg == "invalid limit"
    ensures e.SearchParseError? ==>
      |ParseErrorPrefix| <= |msg| && msg[..|ParseErrorPrefix|] == ParseErrorPrefix && msg[|ParseErrorPrefix|..] == e.detail
    ensures e.AdvancedSearchRequired? ==>
      |AdvancedSearchPrefix| <= |msg| && msg[..|AdvancedSearchPrefix|] == AdvancedSearchPrefix
      && msg[|AdvancedSearchPrefix|..] == e.featureName
  {
    match e
    case InvalidLimit => "invalid limit"
    case SearchParseError(detail) => ParseErrorPrefix + detail
    case AdvancedSearchRequired(featureName) =>
      var msg := AdvancedSearchMessage(featureName);
      assert msg[0] == msg[..|AdvancedSearchPrefix|][0];
      msg
  }

  /** The first letter of each message, which tells the three kinds apart. */
  function LeadLetter(e: QueryError): char {
    match e
    case InvalidLimit => 'i'
    case SearchParseError(_) => 'E'
    case AdvancedSearchRequired(_) => 'Y'
  }

  /** The message identifies the error: different errors never carry the same message. */
  lemma MessageInjective(a: QueryError, b: QueryError)
    requires Message(a) == Message(b)
    ensures a == b
  {
    assert LeadLetter(a) == Message(a)[0] == Message(b)[0] == LeadLetter(b);
  }

  /** The search query of a request: "is:unresolved" when absent, surrounding whitespace stripped. */
  function SearchQuery(params: QueryDict): (q: string)
    ensures "query" !in params ==> q == DefaultQuery
    ensures "query" in params ==> q == Strip(params["query"])
  {
    assert !IsSpace(DefaultQuery[0]) && !IsSpace(DefaultQuery[|DefaultQuery| - 1]);
    StripUnpadded(DefaultQuery);
    Strip(if "query" in params then params["query"] else DefaultQuery)
  }

  /** The limit raises no error: it is absent, empty, or an integer. */
  predicate LimitAccepted(params: QueryDict) {
    "limit" !in params || params["limit"] == "" || ParseInt(params["limit"]).Some?
  }

  /**
   * `build_query_params_from_request`: the sort (or `defaultSort`), the
   * limit when one is given, and for a non-empty query the filters that
   * `parse` (the search-query parser) yields, subject to the
   * advanced-search gate.
   */
  function BuildQueryParams(params: QueryDict, defaultSort: string, hasAdvancedSearch: bool,
                            parse: string -> Result<seq<SearchFilter>, string>): (r: Result<QueryParams, QueryError>)
    ensures r == Failure(InvalidLimit) <==>
      "limit" in params && params["limit"] != "" && ParseInt(params["limit"]).None?
    ensures r.Success? ==> r.value.sortBy == (if "sort" in params then params["sort"] else defaultSort)
    ensures r.Success? ==> (r.value.limit.Some? <==> "limit" in params && params["limit"] != "")
    ensures r.Success? && r.value.limit.Some? ==> ParseInt(params["limit"]) == r.value.limit
    ensures r.Success? ==> (r.value.searchFilters.None? <==> SearchQuery(params) == "")
    ensures r.Success? && r.value.searchFilters.Some? ==>
      parse(SearchQuery(params)) == Success(r.value.searchFilters.value)
      && (hasAdvancedSearch || FirstAdvancedFeature(r.value.searchFilters.value).None?)
    ensures r.Failure? && r.error.SearchParseError? ==> parse(SearchQuery(params)) == Failure(r.error.detail)
    ensures r.Failure? && r.error.AdvancedSearchRequired? ==>
      && !hasAdvancedSearch
      && parse(SearchQuery(params)).Success?
      && FirstAdvancedFeature(parse(SearchQuery(params)).value) == Some(r.error.featureName)
    ensures LimitAccepted(params) && SearchQuery(params) == "" ==> r.Success?
    ensures LimitAccepted(params) && SearchQuery(params) != "" && parse(SearchQuery(params)).Failure? ==>
      r == Failure(SearchParseError(parse(SearchQuery(params)).error))
    ensures LimitAccepted(params) && SearchQuery(params) != "" && parse(SearchQuery(params)).Success? ==>
      var filters := parse(SearchQuery(params)).value;
      if !hasAdvancedSearch && FirstAdvancedFeature(filters).Some?
      then r == Failure(AdvancedSearchRequired(FirstAdvancedFeature(filters).value))
      else r.Success? && r.value.searchFilters == Some(filters)
  {
    var sortBy := if "sort" in params then params["sort"] else defaultSort;
    var limitText := if "limit" in params then params["limit"] else "";
    if limitText != "" && ParseInt(limitText).None? then Failure(InvalidLimit)
    else
      var limit := if limitText == "" then None else ParseInt(limitText);
      var query := SearchQuery(params);
      if query == "" then Success(QueryParams(sortBy, limit, None))
      else
        match parse(query)
        case Failure(e) => Failure(SearchParseError(e))
        case Success(filters) =>
          var gated := FirstAdvancedFeature(filters);
          if !hasAdvancedSearch && gated.Some? then Failure(AdvancedSearchRequired(gated.value))
          else Success(QueryParams(sortBy, limit, Some(filters)))
  }

  /** A limit written as `str(n)` is passed on as `n`. */
  lemma LimitRoundTrip(params: QueryDict, defaultSort: string, hasAdvancedSearch: bool,
                       parse: string -> Result<seq<SearchFilter>, string>, n: int)
    requires "limit" in params && params["limit"] == IntToString(n)
    ensures var r := BuildQueryParams(params, defaultSort, hasAdvancedSearch, parse);
      r.Success? ==> r.value.limit == Some(n)
  {
    ParseIntRoundTrip(n);
  }

  /** Without advanced search, a query using an advanced feature is rejected, naming that feature. */
  lemma AdvancedQueryRejected(params: QueryDict, defaultSort: string,
                              parse: string -> Result<seq<SearchFilter>, string>, filters: seq<SearchFilter>, i: nat)
    requires LimitAccepted(params) && SearchQuery(params) != ""
    requires parse(SearchQuery(params)) == Success(filters)
    requires i < |filters| && IsAdvanced(filters[i]) && forall j :: 0 <= j < i ==> !IsAdvanced(filters[j])
    ensures BuildQueryParams(params, defaultSort, false, parse) == Failure(AdvancedSearchRequired(FirstFeatureOf(filters[i]).value))
  {
    FirstAdvancedAt(filters, i);
  }

  // ---------------------------------------------------------------------------
  // Bulk group deletion
  // ---------------------------------------------------------------------------

  /** Group statuses; only the two deletion states are distinguished here. */
  datatype GroupStatus = PendingDeletion | DeletionInProgress | OtherStatus(code: int)

  predicate IsDeletionStatus(s: GroupStatus) {
    s == PendingDeletion || s == DeletionInProgress
  }

  datatype Group = Group(id: int, projectId: int, timesSeen: int, status: GroupStatus)

  /** The deletion order: by times seen, then by id. */
  predicate SortKeyLe(a: Group, b: Group) {
    a.timesSeen < b.timesSeen || (a.timesSeen == b.timesSeen && a.id <= b.id)
  }

  predicate SortedByKey(s: seq<Group>) {
    forall i, j :: 0 <= i < j < |s| ==> SortKeyLe(s[i], s[j])
  }

  function Ids(s: seq<Group>): (ids: seq<int>)
    ensures |ids| == |s| && forall i :: 0 <= i < |s| ==> ids[i] == s[i].id
  {
    seq(|s|, i requires 0 <= i < |s| => s[i].id)
  }

  /**
   * The table after the bulk update: every listed group not already in a
   * deletion state becomes PendingDeletion; nothing else changes.
   */
  function MarkedPending(groups: map<int, Group>, ids: set<int>): (m: map<int, Group>)
    ensures m.Keys == groups.Keys
    ensures forall k :: k in groups ==>
      m[k] == if k in ids && !IsDeletionStatus(groups[k].status) then groups[k].(status := PendingDeletion) else groups[k]
  {
    map k | k in groups :: if k in ids && !IsDeletionStatus(groups[k].status) then groups[k].(status := PendingDeletion) else groups[k]
  }

  /** After marking, every listed group is in a deletion state and no other group changed. */
  lemma MarkedPendingStatuses(groups: map<int, Group>, ids: set<int>, k: int)
    requires k in groups
    ensures var m := MarkedPending(groups, ids);
      && (k in ids ==> IsDeletionStatus(m[k].status))
      && (IsDeletionStatus(groups[k].status) ==> m[k] == groups[k])
      && (k !in ids ==> m[k] == groups[k])
      && m[k].id == groups[k].id && m[k].projectId == groups[k].projectId && m[k].timesSeen == groups[k].timesSeen
  {
  }

  /** Marking twice in a row is marking once with both lists. */
  lemma MarkedPendingTwice(groups: map<int, Group>, a: set<int>, b: set<int>)
    ensures MarkedPending(MarkedPending(groups, a), b) == MarkedPending(groups, a + b)
  {
    var lhs := MarkedPending(MarkedPending(groups, a), b);
    var rhs := MarkedPending(groups, a + b);
    forall k | k in groups ensures lhs[k] == rhs[k] {
    }
    assert lhs.Keys == rhs.Keys;
  }

  /** Sorts the groups in place into deletion order. */
  method SortGroups(a: array<Group>)
    modifies a
    ensures SortedByKey(a[..])
    ensures multiset(a[..]) == multiset(old(a[..]))
  {
    var i := 0;
    while i < a.Length
      invariant 0 <= i <= a.Length
      invariant forall p, q :: 0 <= p < q < i ==> SortKeyLe(a[p], a[q])
      invariant multiset(a[..]) == multiset(old(a[..]))
    {
      var j := i;
      while j > 0 && !SortKeyLe(a[j - 1], a[j])
        invariant 0 <= j <= i < a.Length
        invariant forall p, q :: 0 <= p < q <= i && p != j && q != j ==> SortKeyLe(a[p], a[q])
        invariant forall q :: j < q <= i ==> SortKeyLe(a[j], a[q])
        invariant multiset(a[..]) == multiset(old(a[..]))
      {
        a[j - 1], a[j] := a[j], a[j - 1];
        j := j - 1;
      }
      i := i + 1;
    }
  }

  /** The group table, keyed by group id. */
  class GroupStore {
    var groups: map<int, Group>

    constructor (groups: map<int, Group>)
      ensures this.groups == groups
    {
      this.groups := groups;
    }

    /** The bulk status update: the listed groups not already being deleted become PendingDeletion. */
    method MarkPendingDeletion(ids: seq<int>)
      modifies this
      ensures groups == MarkedPending(old(groups), set i | i in ids)
    {
      groups := MarkedPending(groups, set i | i in ids);
    }
  }

  /**
   * `delete_group_list`, its sorting and status steps: nothing for a
   * missing or empty list; otherwise the list is sorted in place into
   * deletion order and its groups are marked PendingDeletion. Returns the
   * ids, in that order, handed on to the deletion task.
   */
  method DeleteGroupList(store: GroupStore, groupList: array?<Group>) returns (groupIds: seq<int>)
    modifies store, groupList
    ensures groupList == null ==> groupIds == [] && store.groups == old(store.groups)
    ensures groupList != null && groupList.Length == 0 ==> groupIds == [] && store.groups == old(store.groups)
    ensures groupList != null && groupList.Length > 0 ==>
      && SortedByKey(groupList[..])
      && multiset(groupList[..]) == multiset(old(groupList[..]))
      && groupIds == Ids(groupList[..])
      && store.groups == MarkedPending(old(store.groups), set i | i in groupIds)
  {
    if groupList == null || groupList.Length == 0 {
      return [];
    }
    SortGroups(groupList);
    groupIds := Ids(groupList[..]);
    store.MarkPendingDeletion(groupIds);
  }

  // ---------------------------------------------------------------------------
  // Partition by project
  // ---------------------------------------------------------------------------

  /** The groups of project `p`, in input order. */
  function GroupsOfProject(gs: seq<Group>, p: int): (b: seq<Group>)
    ensures forall g :: g in b <==> g in gs && g.projectId == p
  {
    if gs == [] then []
    else GroupsOfProject(gs[..|gs| - 1], p) + (if gs[|gs| - 1].projectId == p then [gs[|gs| - 1]] else [])
  }

  /** One more group extends its own project's bucket and no other. */
  lemma GroupsOfProjectStep(gs: seq<Group>, i: nat, p: int)
    requires i < |gs|
    ensures GroupsOfProject(gs[..i + 1], p) == GroupsOfProject(gs[..i], p) + (if gs[i].projectId == p then [gs[i]] else [])
  {
    assert gs[..i + 1][..i] == gs[..i];
  }

  /** The buckets keep the input order: the bucket of a concatenation is the concatenation of buckets. */
  lemma {:induction false} GroupsOfProjectAppend(a: seq<Group>, b: seq<Group>, p: int)
    ensures GroupsOfProject(a + b, p) == GroupsOfProject(a, p) + GroupsOfProject(b, p)
  {
    if b != [] {
      var b' := b[..|b| - 1];
      GroupsOfProjectAppend(a, b', p);
      assert (a + b)[..|a + b| - 1] == a + b';
    } else {
      assert a + b == a;
    }
  }

  /**
   * Fills `groups_by_project_id`: each group is appended to the list of its
   * project, so that the lists are exactly the projects' non-empty buckets.
   */
  method PartitionByProject(groupList: seq<Group>) returns (groupsByProjectId: map<int, seq<Group>>)
    ensures forall p :: p in groupsByProjectId <==> GroupsOfProject(groupList, p) != []
    ensures forall p :: p in groupsByProjectId ==> groupsByProjectId[p] == GroupsOfProject(groupList, p)
  {
    groupsByProjectId := map[];
    var i := 0;
    while i < |groupList|
      invariant 0 <= i <= |groupList|
      invariant BucketsOf(groupList[..i], groupsByProjectId)
    {
      var group := groupList[i];
      var bucket := if group.projectId in groupsByProjectId then groupsByProjectId[group.projectId] else [];
      AppendKeepsBuckets(groupList, i, groupsByProjectId);
      groupsByProjectId := groupsByProjectId[group.projectId := bucket + [group]];
      i := i + 1;
    }
    assert groupList[..i] == groupList;
  }

  /** The buckets of `groupList[..i]`. */
  ghost predicate BucketsOf(gs: seq<Group>, buckets: map<int, seq<Group>>) {
    && (forall p :: p in buckets <==> GroupsOfProject(gs, p) != [])
    && (forall p :: p in buckets ==> buckets[p] == GroupsOfProject(gs, p))
  }

  /** Appending the next group to its project's list gives the buckets of the longer prefix. */
  lemma AppendKeepsBuckets(gs: seq<Group>, i: nat, buckets: map<int, seq<Group>>)
    requires i < |gs| && BucketsOf(gs[..i], buckets)
    ensures var pid := gs[i].projectId;
      BucketsOf(gs[..i + 1], buckets[pid := (if pid in buckets then buckets[pid] else []) + [gs[i]]])
  {
    var pid := gs[i].projectId;
    var m := buckets[pid := (if pid in buckets then buckets[pid] else []) + [gs[i]]];
    forall p ensures p in m <==> GroupsOfProject(gs[..i + 1], p) != [] {
      GroupsOfProjectStep(gs, i, p);
    }
    forall p | p in m ensures m[p] == GroupsOfProject(gs[..i + 1], p) {
      GroupsOfProjectStep(gs, i, p);
    }
  }

  /** Every group lies in exactly one bucket, the one of its own project. */
  lemma PartitionIsExact(groupList: seq<Group>, groupsByProjectId: map<int, seq<Group>>, g: Group)
    requires forall p :: p in groupsByProjectId <==> GroupsOfProject(groupList, p) != []
    requires forall p :: p in groupsByProjectId ==> groupsByProjectId[p] == GroupsOfProject(groupList, p)
    requires g in groupList
    ensures g.projectId in groupsByProjectId && g in groupsByProjectId[g.projectId]
    ensures forall p :: p in groupsByProjectId && p != g.projectId ==> g !in groupsByProjectId[p]
  {
    assert g in GroupsOfProject(groupList, g.projectId);
  }

  /** The ids of the groups in `gs`. */
  function IdSet(gs: seq<Group>): set<int> {
    set g | g in gs :: g.id
  }

  /** The ids a sorted copy hands on are those of the bucket it was sorted from. */
  lemma SortedCopyIds(sorted: seq<Group>, bucket: seq<Group>)
    requires multiset(sorted) == multiset(bucket)
    ensures (set i | i in Ids(sorted)) == IdSet(bucket)
  {
    forall x | x in Ids(sorted) ensures x in IdSet(bucket) {
      var k :| 0 <= k < |sorted| && Ids(sorted)[k] == x;
      assert sorted[k] in multiset(bucket);
    }
    forall g | g in bucket ensures g.id in Ids(sorted) {
      assert g in multiset(sorted);
      var k :| 0 <= k < |sorted| && sorted[k] == g;
      assert Ids(sorted)[k] == g.id;
    }
  }

  /** The ids of the groups of the listed projects. */
  function ListedIds(groupList: seq<Group>, projectIds: seq<int>): set<int> {
    set g | g in groupList && g.projectId in projectIds :: g.id
  }

  /** One more project adds the ids of its bucket. */
  lemma ListedIdsStep(groupList: seq<Group>, projectIds: seq<int>, n: nat)
    requires n < |projectIds|
    ensures ListedIds(groupList, projectIds[..n + 1])
         == ListedIds(groupList, projectIds[..n]) + IdSet(GroupsOfProject(groupList, projectIds[n]))
  {
    assert projectIds[..n + 1] == projectIds[..n] + [projectIds[n]];
  }

  /**
   * `delete_groups` after the groups are fetched: nothing for an empty
   * list; otherwise the groups are partitioned by project and each listed
   * project's groups go through DeleteGroupList. Groups of projects not
   * listed are left alone.
   */
  method DeleteGroups(store: GroupStore, projectIds: seq<int>, groupList: seq<Group>)
    modifies store
    ensures store.groups == MarkedPending(old(store.groups), ListedIds(groupList, projectIds))
  {
    ghost var initial := store.groups;
    MarkedPendingNone(initial);
    if groupList == [] {
      assert ListedIds(groupList, projectIds) == {};
      return;
    }
    var groupsByProjectId := PartitionByProject(groupList);
    var n := 0;
    assert ListedIds(groupList, projectIds[..0]) == {};
    while n < |projectIds|
      invariant 0 <= n <= |projectIds|
      invariant store.groups == MarkedPending(initial, ListedIds(groupList, projectIds[..n]))
    {
      var projectId := projectIds[n];
      ghost var bucket := GroupsOfProject(groupList, projectId);
      ghost var before := store.groups;
      if projectId in groupsByProjectId {
        var groups := groupsByProjectId[projectId];
        var list := new Group[|groups|](k requires 0 <= k < |groups| => groups[k]);
        assert list[..] == groups;
        var groupIds := DeleteGroupList(store, list);
        SortedCopyIds(list[..], bucket);
        assert store.groups == MarkedPending(before, IdSet(bucket));
      } else {
        assert IdSet(bucket) == {};
        MarkedPendingNone(before);
      }
      MarkedPendingTwice(initial, ListedIds(groupList, projectIds[..n]), IdSet(bucket));
      ListedIdsStep(groupList, projectIds, n);
      n := n + 1;
    }
    assert projectIds[..n] == projectIds;
  }

  /** Marking no groups changes nothing. */
  lemma MarkedPendingNone(groups: map<int, Group>)
    ensures MarkedPending(groups, {}) == groups
  {
  }
}

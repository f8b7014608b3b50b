/**
  The HAL search client: its two closed enumerations, the construction check
  that chooses the portal or collection path segment, and the translation of
  the keyword arguments of `search` into the ordered query parameters of the
  GET request.

  Python's truthiness decides presence throughout: `None`, `""`, `0` and `[]`
  all count as "not given".
 */
module HalClient {
  import opened Wrappers
  import Decimal
  import Text
  import DateFilter

  /** Sort orders accepted by the HAL API. */
  datatype Order = Ascending | Descending {
    function Token(): string {
      match this
      case Ascending => "asc"
      case Descending => "desc"
    }
  }

  const OrderTokens: set<string> := {"asc", "desc"}

  /** `Order(token)`: the member whose value is `token`, None where Python raises. */
  function ParseOrder(token: string): (r: Option<Order>)
    ensures r.Some? <==> token in OrderTokens
    ensures r.Some? ==> r.value.Token() == token
  {
    if token == "asc" then Some(Ascending)
    else if token == "desc" then Some(Descending)
    else None
  }

  /** Response formats accepted by the HAL API. */
  datatype Format = Json | Xml | XmlTei | Bibtex | Csv {
    function Token(): string {
      match this
      case Json => "json"
      case Xml => "xml"
      case XmlTei => "xml-tei"
      case Bibtex => "bibtex"
      case Csv => "csv"
    }
  }

  const FormatTokens: set<string> := {"json", "xml", "xml-tei", "bibtex", "csv"}

  /** `Format(token)`: the member whose value is `token`, None where Python raises. */
  function ParseFormat(token: string): (r: Option<Format>)
    ensures r.Some? <==> token in FormatTokens
    ensures r.Some? ==> r.value.Token() == token
  {
    if token == "json" then Some(Json)
    else if token == "xml" then Some(Xml)
    else if token == "xml-tei" then Some(XmlTei)
    else if token == "bibtex" then Some(Bibtex)
    else if token == "csv" then Some(Csv)
    else None
  }

  /** Every member is found again from its own token. */
  lemma FormatTokenRoundTrip(f: Format)
    ensures f.Token() in FormatTokens && ParseFormat(f.Token()) == Some(f)
  {
  }

  /** The errors the client raises (all are `ValueError`s in Python). */
  datatype Error =
    | PathConflict               // both `portail` and `collection` given
    | InvalidFormat(token: string)
    | InvalidOrder(token: string)

  /** A query parameter value: `params` maps names to `str | int`. */
  datatype Value = Str(text: string) | Int(number: int)

  /** Query parameters in insertion order, as the Python dict keeps them. */
  type Params = seq<(string, Value)>

  predicate StrTruthy(s: Option<string>) {
    s.Some? && s.value != ""
  }

  predicate IntTruthy(n: Option<int>) {
    n.Some? && n.value != 0
  }

  predicate ListTruthy(xs: Option<seq<string>>) {
    xs.Some? && xs.value != []
  }

  // ---------------------------------------------------------------------------
  // Construction

  const DefaultBaseUrl: string := "http://api.archives-ouvertes.fr/search/"

  /**
    A constructed client. `segment` is the path segment joined onto `baseUrl`
    to form the transport's base URL; None leaves `baseUrl` unchanged.
   */
  datatype Client = Client(
    baseUrl: string,
    portail: Option<string>,
    collection: Option<string>,
    defaultFormat: Format,
    segment: Option<string>)

  /** `HALClient(base_url, portail, collection, default_format)`. */
  function NewClient(baseUrl: string, portail: Option<string>, collection: Option<string>, defaultFormat: Format): (r: Result<Client, Error>)
    ensures r.Failure? <==> StrTruthy(portail) && StrTruthy(collection)
    ensures r.Failure? ==> r.error == PathConflict
    ensures r.Success? ==>
      && r.value.baseUrl == baseUrl
      && r.value.portail == portail
      && r.value.collection == collection
      && r.value.defaultFormat == defaultFormat
    ensures r.Success? ==> (r.value.segment.Some? <==> StrTruthy(portail) || StrTruthy(collection))
    ensures r.Success? && r.value.segment.Some? ==>
      r.value.segment.value != "" && (r.value.segment == portail || r.value.segment == collection)
  {
    if StrTruthy(collection) && StrTruthy(portail) then Failure(PathConflict)
    else
      var segment := if StrTruthy(portail) then portail else if StrTruthy(collection) then collection else None;
      Success(Client(baseUrl, portail, collection, defaultFormat, segment))
  }

  /** The client built with every default argument talks to the base URL itself, in JSON. */
  lemma DefaultClient()
    ensures NewClient(DefaultBaseUrl, None, None, Json) == Success(Client(DefaultBaseUrl, None, None, Json, None))
  {
  }

  // ---------------------------------------------------------------------------
  // Search parameters

  /** The keyword arguments of `search`; `format` and `sortOrder` are raw tokens. */
  datatype SearchArgs = SearchArgs(
    query: string,
    format: Option<string>,
    includeFields: Option<seq<string>>,
    sortBy: Option<string>,
    sortOrder: Option<string>,
    before: Option<int>,
    after: Option<int>,
    rows: int,
    offset: int)

  /** `search(query)` with every other argument left at its default. */
  function DefaultArgs(query: string): SearchArgs {
    SearchArgs(query, None, None, None, None, None, None, 0, 0)
  }

  /** The upper filter bound used when `before` is not given. */
  const DefaultBefore: int := 1900

  /** Every parameter name `search` can emit, in emission order. */
  const CanonicalKeys: seq<string> := ["q", "wt", "fl", "sort", "fq", "rows", "start"]

  function Keys(ps: Params): seq<string> {
    seq(|ps|, i requires 0 <= i < |ps| => ps[i].0)
  }

  predicate Distinct(ks: seq<string>) {
    forall i, j :: 0 <= i < j < |ks| ==> ks[i] != ks[j]
  }

  predicate DistinctKeys(ps: Params) {
    Distinct(Keys(ps))
  }

  /** The value stored under `key`: the first pair with that name. */
  function Lookup(ps: Params, key: string): (r: Option<Value>)
    ensures r.None? <==> key !in Keys(ps)
    ensures r.Some? ==> (key, r.value) in ps
  {
    if |ps| == 0 then None
    else
      assert Keys(ps) == [ps[0].0] + Keys(ps[1..]);
      if ps[0].0 == key then Some(ps[0].1)
      else Lookup(ps[1..], key)
  }

  /** With distinct names, looking a name up finds exactly the pair stored under it. */
  lemma {:induction false} LookupFindsPair(ps: Params, key: string, v: Value)
    requires DistinctKeys(ps)
    ensures Lookup(ps, key) == Some(v) <==> (key, v) in ps
  {
    if |ps| > 0 {
      assert Keys(ps) == [ps[0].0] + Keys(ps[1..]);
    }
    if |ps| > 0 && ps[0].0 != key {
      assert Keys(ps[1..]) == Keys(ps)[1..];
      LookupFindsPair(ps[1..], key, v);
      assert (key, v) in ps <==> (key, v) in ps[1..] by {
        assert ps == [ps[0]] + ps[1..];
      }
    } else if |ps| > 0 && (key, v) in ps {
      var j :| 0 <= j < |ps| && ps[j] == (key, v);
      assert Keys(ps)[j] == Keys(ps)[0];
    }
  }

  predicate FormatRejected(format: Option<string>) {
    StrTruthy(format) && format.value !in FormatTokens
  }

  predicate OrderRejected(sortBy: Option<string>, sortOrder: Option<string>) {
    StrTruthy(sortBy) && StrTruthy(sortOrder) && sortOrder.value !in OrderTokens
  }

  /** Arguments `search` accepts: it raises for no others. */
  predicate Accepted(a: SearchArgs) {
    !FormatRejected(a.format) && !OrderRejected(a.sortBy, a.sortOrder)
  }

  /** The names `search` emits for these arguments, in emission order. */
  function ExpectedKeys(a: SearchArgs): seq<string> {
    ["q", "wt"]
    + (if ListTruthy(a.includeFields) then ["fl"] else [])
    + (if StrTruthy(a.sortBy) then ["sort"] else [])
    + (if IntTruthy(a.after) || IntTruthy(a.before) then ["fq"] else [])
    + ["rows", "start"]
  }

  /** `sort_by + " " + order`, the `sort` value. */
  function SortValue(field: string, order: Order): string {
    field + " " + order.Token()
  }

  /** Splits a `sort` value at its last space into field and order. */
  function ParseSort(v: string): Option<(string, Order)> {
    match Text.LastIndex(v, ' ')
    case None => None
    case Some(i) =>
      match ParseOrder(v[i + 1..])
      case None => None
      case Some(o) => Some((v[..i], o))
  }

  /** The field and order are recovered from a `sort` value, whatever the field holds. */
  lemma ParseSortValue(field: string, order: Order)
    ensures ParseSort(SortValue(field, order)) == Some((field, order))
  {
    var v := SortValue(field, order);
    assert ' ' !in order.Token();
    assert v == field + [' '] + order.Token();
    Text.LastIndexBeforeFreeSuffix(field, order.Token(), ' ');
    assert v[|field| + 1..] == order.Token();
    assert v[..|field|] == field;
  }

  function FormatEntry(format: Option<string>, default: Format): Result<Params, Error> {
    if StrTruthy(format) then
      match ParseFormat(format.value)
      case None => Failure(InvalidFormat(format.value))
      case Some(f) => Success([("wt", Str(f.Token()))])
    else Success([("wt", Str(default.Token()))])
  }

  function FieldsEntry(includeFields: Option<seq<string>>): Params {
    if ListTruthy(includeFields) then [("fl", Str(Text.Join(includeFields.value, ',')))] else []
  }

  function SortEntry(sortBy: Option<string>, sortOrder: Option<string>): Result<Params, Error> {
    if !StrTruthy(sortBy) then Success([])
    else if !StrTruthy(sortOrder) then Success([("sort", Str(SortValue(sortBy.value, Ascending)))])
    else
      match ParseOrder(sortOrder.value)
      case None => Failure(InvalidOrder(sortOrder.value))
      case Some(o) => Success([("sort", Str(SortValue(sortBy.value, o)))])
  }

  function DateEntry(after: Option<int>, before: Option<int>, currentYear: int): Params {
    if IntTruthy(after) || IntTruthy(before) then
      var lower := if IntTruthy(after) then after.value else currentYear;
      var upper := if IntTruthy(before) then before.value else DefaultBefore;
      [("fq", Str(DateFilter.Render(lower, upper)))]
    else []
  }

  /**
    The query parameters `search` sends, or the error it raises before sending
    anything. `currentYear` stands for `datetime.datetime.now().year`.
   */
  function SearchParams(c: Client, a: SearchArgs, currentYear: int): (r: Result<Params, Error>)
    ensures r.Failure? <==> FormatRejected(a.format) || OrderRejected(a.sortBy, a.sortOrder)
    ensures r.Failure? && FormatRejected(a.format) ==> r.error == InvalidFormat(a.format.value)
    ensures r.Failure? && !FormatRejected(a.format) ==> r.error == InvalidOrder(a.sortOrder.value)
    ensures r.Success? ==> Keys(r.value) == ExpectedKeys(a)
  {
    var wt :- FormatEntry(a.format, c.defaultFormat);
    var sort :- SortEntry(a.sortBy, a.sortOrder);
    Success(
      [("q", Str(a.query))]
      + wt
      + FieldsEntry(a.includeFields)
      + sort
      + DateEntry(a.after, a.before, currentYear)
      + [("rows", Int(a.rows)), ("start", Int(a.offset))])
  }

  // ---------------------------------------------------------------------------
  // Reading the parameters back

  /** The `wt` value read back as a format. */
  function FormatOf(ps: Params): Option<Format> {
    match Lookup(ps, "wt")
    case Some(Str(v)) => ParseFormat(v)
    case _ => None
  }

  /** The `fl` value read back as a list of fields. */
  function FieldsOf(ps: Params): Option<seq<string>> {
    match Lookup(ps, "fl")
    case Some(Str(v)) => Some(Text.Split(v, ','))
    case _ => None
  }

  /** The `sort` value read back as a field and an order. */
  function SortOf(ps: Params): Option<(string, Order)> {
    match Lookup(ps, "sort")
    case Some(Str(v)) => ParseSort(v)
    case _ => None
  }

  /** The `fq` value read back as its lower and upper year bounds. */
  function FilterOf(ps: Params): Option<(int, int)> {
    match Lookup(ps, "fq")
    case Some(Str(v)) => DateFilter.Parse(v)
    case _ => None
  }

  /** The lower bound of the year filter: `after`, or the current year in its absence. */
  function FilterLower(a: SearchArgs, currentYear: int): int {
    if IntTruthy(a.after) then a.after.value else currentYear
  }

  /** The upper bound of the year filter: `before`, or 1900 in its absence. */
  function FilterUpper(a: SearchArgs): int {
    if IntTruthy(a.before) then a.before.value else DefaultBefore
  }

  // ---------------------------------------------------------------------------
  // Properties of SearchParams

  /**
    Unfolds the `:-` steps of `SearchParams` for an accepted call. It is a
    proof step for the lemmas below, not a property of its own.
   */
  lemma SearchParamsShape(c: Client, a: SearchArgs, currentYear: int)
    requires Accepted(a)
    ensures SearchParams(c, a, currentYear) == Success(
      [("q", Str(a.query))]
      + FormatEntry(a.format, c.defaultFormat).value
      + FieldsEntry(a.includeFields)
      + SortEntry(a.sortBy, a.sortOrder).value
      + DateEntry(a.after, a.before, currentYear)
      + [("rows", Int(a.rows)), ("start", Int(a.offset))])
  {
  }

  /** No name is sent twice, every name is one of the seven known ones, and q, wt, rows, start are always sent. */
  lemma SearchKeys(c: Client, a: SearchArgs, currentYear: int)
    requires Accepted(a)
    ensures DistinctKeys(SearchParams(c, a, currentYear).value)
    ensures forall k :: k in Keys(SearchParams(c, a, currentYear).value) ==> k in CanonicalKeys
    ensures forall k :: k in ["q", "wt", "rows", "start"] ==> k in Keys(SearchParams(c, a, currentYear).value)
  {
    ExpectedKeysDistinct(a);
  }

  /** The names sent are pairwise different, so no dict entry is ever overwritten. */
  lemma ExpectedKeysDistinct(a: SearchArgs)
    ensures Distinct(ExpectedKeys(a))
    ensures forall k :: k in ExpectedKeys(a) ==> k in CanonicalKeys
  {
  }

  /** `q`, `rows` and `start` carry the query, the row count and the offset unchanged. */
  lemma FixedParams(c: Client, a: SearchArgs, currentYear: int)
    requires Accepted(a)
    ensures Lookup(SearchParams(c, a, currentYear).value, "q") == Some(Str(a.query))
    ensures Lookup(SearchParams(c, a, currentYear).value, "rows") == Some(Int(a.rows))
    ensures Lookup(SearchParams(c, a, currentYear).value, "start") == Some(Int(a.offset))
  {
    var ps := SearchParams(c, a, currentYear).value;
    SearchKeys(c, a, currentYear);
    assert ps[0] == ("q", Str(a.query));
    assert ps[|ps| - 2] == ("rows", Int(a.rows));
    assert ps[|ps| - 1] == ("start", Int(a.offset));
    LookupFindsPair(ps, "q", Str(a.query));
    LookupFindsPair(ps, "rows", Int(a.rows));
    LookupFindsPair(ps, "start", Int(a.offset));
  }

  /** `wt` is the requested format token when one is given and the client's default otherwise; it always names a format. */
  lemma FormatParam(c: Client, a: SearchArgs, currentYear: int)
    requires Accepted(a)
    ensures Lookup(SearchParams(c, a, currentYear).value, "wt")
      == Some(Str(if StrTruthy(a.format) then a.format.value else c.defaultFormat.Token()))
    ensures FormatOf(SearchParams(c, a, currentYear).value).Some?
    ensures !StrTruthy(a.format) ==> FormatOf(SearchParams(c, a, currentYear).value) == Some(c.defaultFormat)
  {
    var ps := SearchParams(c, a, currentYear).value;
    var token := if StrTruthy(a.format) then a.format.value else c.defaultFormat.Token();
    SearchKeys(c, a, currentYear);
    assert ps[1] == ("wt", Str(token));
    LookupFindsPair(ps, "wt", Str(token));
    FormatTokenRoundTrip(c.defaultFormat);
  }

  /** `fl` is sent exactly when fields are given, as their comma-joined list, which splits back into the fields when none holds a comma. */
  lemma FieldsParam(c: Client, a: SearchArgs, currentYear: int)
    requires Accepted(a)
    ensures Lookup(SearchParams(c, a, currentYear).value, "fl").Some? <==> ListTruthy(a.includeFields)
    ensures ListTruthy(a.includeFields) ==>
      Lookup(SearchParams(c, a, currentYear).value, "fl") == Some(Str(Text.Join(a.includeFields.value, ',')))
    ensures ListTruthy(a.includeFields) && (forall i :: 0 <= i < |a.includeFields.value| ==> ',' !in a.includeFields.value[i]) ==>
      FieldsOf(SearchParams(c, a, currentYear).value) == a.includeFields
  {
    var ps := SearchParams(c, a, currentYear).value;
    SearchKeys(c, a, currentYear);
    if ListTruthy(a.includeFields) {
      var v := Str(Text.Join(a.includeFields.value, ','));
      assert ps[2] == ("fl", v);
      LookupFindsPair(ps, "fl", v);
      if forall i :: 0 <= i < |a.includeFields.value| ==> ',' !in a.includeFields.value[i] {
        Text.SplitJoin(a.includeFields.value, ',');
      }
    }
  }

  /** `sort` is sent exactly when a sort field is given; it reads back as that field and the given order, ascending by default. */
  lemma SortParam(c: Client, a: SearchArgs, currentYear: int)
    requires Accepted(a)
    ensures SortOf(SearchParams(c, a, currentYear).value).Some? <==> StrTruthy(a.sortBy)
    ensures StrTruthy(a.sortBy) ==>
      && SortOf(SearchParams(c, a, currentYear).value).value.0 == a.sortBy.value
      && SortOf(SearchParams(c, a, currentYear).value).value.1.Token()
         == (if StrTruthy(a.sortOrder) then a.sortOrder.value else Ascending.Token())
  {
    var ps := SearchParams(c, a, currentYear).value;
    SearchKeys(c, a, currentYear);
    if StrTruthy(a.sortBy) {
      var o := if StrTruthy(a.sortOrder) then ParseOrder(a.sortOrder.value).value else Ascending;
      var v := Str(SortValue(a.sortBy.value, o));
      SearchParamsShape(c, a, currentYear);
      assert SortEntry(a.sortBy, a.sortOrder).value == [("sort", v)];
      assert ("sort", v) in ps;
      LookupFindsPair(ps, "sort", v);
      ParseSortValue(a.sortBy.value, o);
    }
  }

  /** `fq` is sent exactly when a year bound is given; it reads back as `after` (else the current year) and `before` (else 1900). */
  lemma DateFilterParam(c: Client, a: SearchArgs, currentYear: int)
    requires Accepted(a)
    ensures IntTruthy(a.after) || IntTruthy(a.before) ==>
      Lookup(SearchParams(c, a, currentYear).value, "fq")
        == Some(Str(DateFilter.Render(FilterLower(a, currentYear), FilterUpper(a))))
    ensures FilterOf(SearchParams(c, a, currentYear).value)
      == if IntTruthy(a.after) || IntTruthy(a.before)
         then Some((FilterLower(a, currentYear), FilterUpper(a)))
         else None
  {
    var ps := SearchParams(c, a, currentYear).value;
    SearchKeys(c, a, currentYear);
    if IntTruthy(a.after) || IntTruthy(a.before) {
      var lower, upper := FilterLower(a, currentYear), FilterUpper(a);
      var v := Str(DateFilter.Render(lower, upper));
      SearchParamsShape(c, a, currentYear);
      assert ("fq", v) in ps;
      LookupFindsPair(ps, "fq", v);
      DateFilter.ParseRender(lower, upper);
    }
  }

  /**
    With only one year bound given, the filter matches no year at all as soon
    as `before` is not after the current year, or `after` is not before 1900:
    the default for the other bound lands on the wrong side of the range.
   */
  lemma OneSidedFilterIsEmpty(c: Client, a: SearchArgs, currentYear: int)
    requires Accepted(a)
    requires IntTruthy(a.after) != IntTruthy(a.before)
    requires IntTruthy(a.before) ==> a.before.value <= currentYear
    requires IntTruthy(a.after) ==> DefaultBefore <= a.after.value
    ensures FilterOf(SearchParams(c, a, currentYear).value).Some?
    ensures forall year ::
      !DateFilter.Matches(year, FilterOf(SearchParams(c, a, currentYear).value).value.0,
                                FilterOf(SearchParams(c, a, currentYear).value).value.1)
  {
    DateFilterParam(c, a, currentYear);
    DateFilter.EmptyRange(FilterLower(a, currentYear), FilterUpper(a));
  }

  /** Without a sort field, the sort order is never looked at, valid or not. */
  lemma SortOrderIgnoredWithoutSortBy(c: Client, a: SearchArgs, currentYear: int, sortOrder: Option<string>)
    requires !StrTruthy(a.sortBy)
    ensures SearchParams(c, a.(sortOrder := sortOrder), currentYear) == SearchParams(c, a, currentYear)
  {
  }

  /** The current year changes the parameters exactly when `before` is given without `after`. */
  lemma CurrentYearUse(c: Client, a: SearchArgs, year1: int, year2: int)
    requires year1 != year2
    ensures SearchParams(c, a, year1) == SearchParams(c, a, year2)
      <==> SearchParams(c, a, year1).Failure? || IntTruthy(a.after) || !IntTruthy(a.before)
  {
    if SearchParams(c, a, year1).Success? && !IntTruthy(a.after) && IntTruthy(a.before) {
      DateFilterParam(c, a, year1);
      DateFilterParam(c, a, year2);
    }
  }

  /** `search(query)` sends the query, the default format, zero rows and offset zero. */
  lemma DefaultSearch(c: Client, query: string, currentYear: int)
    ensures SearchParams(c, DefaultArgs(query), currentYear)
      == Success([("q", Str(query)), ("wt", Str(c.defaultFormat.Token())), ("rows", Int(0)), ("start", Int(0))])
  {
    var a := DefaultArgs(query);
    assert FieldsEntry(a.includeFields) == [];
    assert SortEntry(a.sortBy, a.sortOrder) == Success([]);
    assert DateEntry(a.after, a.before, currentYear) == [];
    var wt: Params := [("wt", Str(c.defaultFormat.Token()))];
    assert FormatEntry(a.format, c.defaultFormat) == Success(wt);
    var empty: Params := [];
    var ps := [("q", Str(query))] + wt + empty + empty + empty + [("rows", Int(0)), ("start", Int(0))];
    assert SearchParams(c, a, currentYear) == Success(ps);
    assert ps == [("q", Str(query)), ("wt", Str(c.defaultFormat.Token())), ("rows", Int(0)), ("start", Int(0))];
  }

  lemma UsageFilter()
    ensures DateFilter.Render(2012, 2019) == "submittedDateY_i:[2012 TO 2019}"
  {
    assert Decimal.NatToString(20) == "20";
    assert Decimal.NatToString(201) == "201";
    assert Decimal.IntToString(2012) == "2012";
    assert Decimal.IntToString(2019) == "2019";
    assert DateFilter.Render(2012, 2019) == DateFilter.Prefix + "2012" + DateFilter.Separator + "2019" + "}";
  }

  lemma UsageFields()
    ensures Text.Join(["docid", "label_s", "abstract_s"], ',') == "docid,label_s,abstract_s"
  {
    var names := ["docid", "label_s", "abstract_s"];
    assert names[1..] == ["label_s", "abstract_s"];
    assert names[1..][1..] == ["abstract_s"];
    assert Text.Join(names[1..], ',') == "label_s" + "," + "abstract_s";
    assert Text.Join(names, ',') == "docid" + "," + "label_s" + "," + "abstract_s";
  }

  /** The search made by the repository's usage script, on a default client. */
  lemma UsageExample(currentYear: int)
    ensures NewClient(DefaultBaseUrl, None, None, Json).Success?
    ensures SearchParams(
        NewClient(DefaultBaseUrl, None, None, Json).value,
        SearchArgs("python", None, Some(["docid", "label_s", "abstract_s"]), None, None, Some(2019), Some(2012), 100, 0),
        currentYear)
      == Success([
        ("q", Str("python")),
        ("wt", Str("json")),
        ("fl", Str("docid,label_s,abstract_s")),
        ("fq", Str("submittedDateY_i:[2012 TO 2019}")),
        ("rows", Int(100)),
        ("start", Int(0))])
  {
    var c := NewClient(DefaultBaseUrl, None, None, Json).value;
    var a := SearchArgs("python", None, Some(["docid", "label_s", "abstract_s"]), None, None, Some(2019), Some(2012), 100, 0);
    UsageFilter();
    UsageFields();
    var filter := DateFilter.Render(2012, 2019);
    var fields := Text.Join(["docid", "label_s", "abstract_s"], ',');
    assert DateEntry(a.after, a.before, currentYear) == [("fq", Str(filter))];
    assert FieldsEntry(a.includeFields) == [("fl", Str(fields))];
    var empty: Params := [];
    assert SortEntry(a.sortBy, a.sortOrder) == Success(empty);
    assert FormatEntry(a.format, c.defaultFormat) == Success([("wt", Str("json"))]);
    var ps := [("q", Str("python"))] + [("wt", Str("json"))] + [("fl", Str(fields))] + empty
      + [("fq", Str(filter))] + [("rows", Int(100)), ("start", Int(0))];
    assert SearchParams(c, a, currentYear) == Success(ps);
    assert ps == [("q", Str("python")), ("wt", Str("json")), ("fl", Str(fields)),
                  ("fq", Str(filter)), ("rows", Int(100)), ("start", Int(0))];
  }
}

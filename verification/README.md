# HAL search client: request parameters in Dafny

`halpy` is a small Python client for the HAL open-archive search API. A
`HALClient` is built from a base URL, an optional portal (`portail`) or
collection, and a default response format. Its `search` method turns
keyword arguments into the query parameters of one GET request: the query
`q`, the response format `wt`, an optional field list `fl`, an optional
`sort`, an optional submission-year filter `fq`, then `rows` and `start`.

This project models that translation as pure functions and proves what it
sends:

- `wrappers.dfy` (`Wrappers`): `Option` and `Result`. `Result` stands for
  "returns these parameters" or "raises this `ValueError`".
- `decimal.dfy` (`Decimal`): `str(int)` as an f-string renders it, with a
  parser as its partner.
- `text.dfy` (`Text`): `",".join`, `str.split`, `find` and `rfind` for one
  separator character.
- `date_filter.dfy` (`DateFilter`): the `fq` string
  `submittedDateY_i:[<after> TO <before>}` and its parser. In Apache Solr
  range syntax `[` includes the lower bound and `}` excludes the upper one.
- `hal_client.dfy` (`HalClient`):
  - the `Order` and `Format` enumerations;
  - the construction check and the choice of path segment;
  - `SearchParams`, which builds the parameters;
  - lemmas that read every parameter back and relate it to the arguments.

Python truthiness decides whether an argument counts as given. `None`, `""`,
`0` and `[]` all count as absent. So `after=0` is replaced by the current
year when `before` is given (with neither bound given no `fq` is sent), an
empty field list sends no `fl`, and an empty format falls back to the
default. `format` and `sort_order` are modelled as raw tokens: a
string-valued enum member and its value are looked up the same way.

Three behaviours of the code are reproduced as written:

- The year filter ends in `}` (src/halpy/client.py:97), so Solr excludes
  the upper bound.
- The filter defaults are `after` = current year and `before` = 1900, with
  `after` in the lower slot. `OneSidedFilterIsEmpty` proves the effect: a
  filter given only one realistic bound matches no year at all.
- The sort order is checked only when a sort field is given.

The query text is passed through unchecked, so the empty query is sent too.

## Model

| member | source | states |
|---|---|---|
| HalClient.ParseOrder | src/halpy/client.py:10-14 | `Order(token)` succeeds exactly for `asc` and `desc`, and the member it returns has that token as its value |
| HalClient.ParseFormat | src/halpy/client.py:17-36 | `Format(token)` succeeds exactly for the five tokens json, xml, xml-tei, bibtex and csv, and the member it returns has that token as its value |
| HalClient.FormatTokenRoundTrip | src/halpy/client.py:32-36 | every format's token is one of the five accepted tokens and looks that format up again |
| HalClient.NewClient | src/halpy/client.py:45-69 | construction fails with the path error exactly when both `portail` and `collection` are non-empty. Otherwise it keeps the configuration. A segment is chosen exactly when one of the two is non-empty, and the segment is that non-empty value |
| HalClient.DefaultClient | src/halpy/client.py:45-52 | the all-defaults client uses the HAL search URL unchanged and JSON as its default format |
| HalClient.SearchParams | src/halpy/client.py:85-99 | `search` fails exactly when a non-empty format is not a format token, or a sort field is given with a non-empty order that is not an order token. The format error wins when both apply. On success the names sent are q, wt, then fl/sort/fq when present, then rows, start |
| HalClient.SearchKeys | src/halpy/client.py:85-99 | no name is sent twice, every name is one of q, wt, fl, sort, fq, rows, start, and q, wt, rows and start are always sent |
| HalClient.ExpectedKeysDistinct | src/halpy/client.py:85-99 | the seven parameter names are pairwise different, so the dict never overwrites an entry |
| HalClient.FixedParams | src/halpy/client.py:85-99 | `q`, `rows` and `start` carry the query, the row count and the offset unchanged |
| HalClient.FormatParam | src/halpy/client.py:87 | `wt` is the given format token when one is given, else the client's default format token; it always reads back as a format, the default one when none was given |
| HalClient.FieldsParam | src/halpy/client.py:89-90 | `fl` is sent exactly when the field list is non-empty. Its value is the fields joined by commas, in order, duplicates kept. It splits back into the same list when no field contains a comma |
| HalClient.SortParam | src/halpy/client.py:91-93 | `sort` is sent exactly when `sort_by` is non-empty. It reads back as that field and an order whose token is `sort_order`, or `asc` when no order is given |
| HalClient.ParseSortValue | src/halpy/client.py:93 | `HalClient.SortValue`, the model of the f-string `"<field> <order>"`, splits at its last space into the field and the order, whatever spaces the field contains |
| HalClient.SortOrderIgnoredWithoutSortBy | src/halpy/client.py:91-92 | without a sort field, changing `sort_order` (even to an invalid token) changes neither the result nor the error |
| HalClient.DateFilterParam | src/halpy/client.py:94-97 | `fq` is sent exactly when `after` or `before` is non-zero. Its value is exactly `submittedDateY_i:[<lower> TO <upper>}` with both bounds in decimal, and it reads back as lower bound `after`, or the current year when `after` is absent, and upper bound `before`, or 1900 when `before` is absent |
| HalClient.OneSidedFilterIsEmpty | src/halpy/client.py:94-97 | with only `before` given and it not after the current year, or only `after` given and it not before 1900, the filter matches no year |
| HalClient.CurrentYearUse | src/halpy/client.py:94-96 | two different current years give different results exactly when the call succeeds and `before` is given without `after` |
| HalClient.DefaultSearch | src/halpy/client.py:73-99 | `search(query)` with all defaults sends exactly q, the default wt, rows 0 and start 0 |
| HalClient.UsageExample | examples/usage.py:7-17 | the script's call sends q=python, wt=json, fl=docid,label_s,abstract_s, fq=submittedDateY_i:[2012 TO 2019}, rows=100, start=0 |
| DateFilter.ParseRender | src/halpy/client.py:97 | `DateFilter.Render`, the model of the f-string, carries exactly its two bounds, in the order after, before |
| DateFilter.RenderInjective | src/halpy/client.py:97 | `DateFilter.Render` gives different filter strings for different bounds |
| DateFilter.EmptyRange | src/halpy/client.py:97 | a range with an included lower and an excluded upper bound matches no year exactly when upper <= lower |
| Decimal.IntToString | src/halpy/client.py:97 | a rendered year is non-empty and made of digits, with a leading `-` exactly for negative years and no leading zero except for 0 itself |
| Decimal.NatToString | src/halpy/client.py:97 | the digits of a natural number have a leading zero only for zero itself |
| Decimal.ParseIntToString | src/halpy/client.py:97 | parsing a rendered year gives the year back |
| Decimal.IntToStringInjective | src/halpy/client.py:97 | two years render the same exactly when they are equal |
| Text.Split | src/halpy/client.py:90 | the read-back partner of `Text.Join` (the code itself never splits): splitting yields at least one piece, and no piece contains the separator |
| Text.SplitJoin | src/halpy/client.py:90 | `Text.Join`, the model of `",".join(include_fields)`, loses nothing: splitting its result on commas gives a non-empty list back when no element contains a comma |
| Text.JoinSplit | src/halpy/client.py:90 | `Text.Join` undoes a split: joining the pieces of a split with the separator gives the original string back |

## Left out

- The HTTP transport is not modelled: the `httpx.Client`, the GET to `/`, `raise_for_status` and the `timeout` float (src/halpy/client.py:71, 100, 102). They are network I/O through a library outside this code. The model ends with the parameter list that would be sent.
- `urljoin` is not computed (src/halpy/client.py:67, 69). It is library URL resolution. The client records the base URL and the chosen segment, which `__init__` joins with `urljoin` before the transport is built.
- `datetime.datetime.now().year` becomes the explicit `currentYear` argument (src/halpy/client.py:95).
- The diagnostic `print` of the request URL (src/halpy/client.py:101) is a side effect with no bearing on the parameters.
- The model's arguments are typed, so calls Python accepts at run time with ill-typed values are not modelled: a field list holding non-strings (a `TypeError` from `",".join`, src/halpy/client.py:90), a format or order that is not a string (a `ValueError` from `Format(...)` or `Order(...)`, src/halpy/client.py:87, 92), and a `bool` or string passed as a year.
- Decimal.IntToString: renders every integer, whereas current CPython's `str()` raises `ValueError` for an int longer than 4300 digits (`sys.int_max_str_digits`); no year comes near that limit.
- The usage script's file write (examples/usage.py:19) is I/O; only its search call is modelled.
- HalClient.FieldsParam: the comma-joined `fl` value is proved to split back into the field list only when no field contains a comma. With commas inside fields, different lists give the same value, so nothing stronger holds.

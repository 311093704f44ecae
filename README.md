# Ledger query service: a verified model of its request logic

The service is a small HTTP API over an accounting database. It has seven
GET routes:

- `/api/data` returns one page of journal-entry rows, each joined with its
  optional-field row.
- `/api/data/solutions`, `/api/data/business-unit` and `/api/data/sector`
  return one page of the entries tagged with one business dimension. Each
  row is renamed and trimmed. On request the response also carries the
  total count and the number of pages.
- `/api/data/summerized/solutions`, `/summerized/buunit` and
  `/summerized/sector` add up, for one dimension, the revenue, the cost of
  goods sold and the gross profit of each dimension value.

The six dimension handlers differ only in the tag they filter on and in the
order of their rows. The model writes each piece of logic once and takes
the dimension as a parameter.

- `JsText`: JavaScript's `String.prototype.trim` over the ECMAScript
  whitespace set, and SQL Server's `RTRIM`, which cuts trailing spaces only.
- `JsNumber`: `parseInt` with radix 10 or a `0x` prefix, `x || d` for a
  number, and `Math.ceil(total / top)`.
- `Paging`:
  - turning the query string into `top`, `page`, `skip` and the count flag;
  - the `ROW_NUMBER()` window, as a slice of the ordered result;
  - `totalPages`.
- `Rows`: the raw row, the entry sent to the client, and the rename/trim
  table between them.
- `Summary`: the aggregation, as a method over a `map` with its two loops.
  Next to it is a method for the code as written: there the dictionary is
  a plain JavaScript object (see Findings).
- `Endpoints`:
  - the dimension tag and row order;
  - the list response, as resolved parameters plus a page of shaped rows;
  - the `/api/data` rows with their `RowNum`;
  - the summary response, corrected and as written.

The database is an input. Each handler is modelled as a function of the
rows its query returns, already filtered and ordered.

## Model

| member | source | states |
|---|---|---|
| JsText.TrimStart | index.js:112 | the result is a suffix of the input, the part cut off is all whitespace, and the result does not start with whitespace |
| JsText.TrimEnd | index.js:112 | the result is a prefix of the input, the part cut off is all whitespace, and the result does not end with whitespace |
| JsText.Trim | index.js:112 | the result has no whitespace at either edge, is no longer than the input, and is the input with whitespace cut from both ends only |
| JsText.TrimUnique | index.js:112 | any string obtained by cutting edge whitespace so that none is left is exactly `Trim` of the input |
| JsText.TrimIdempotent | index.js:112 | trimming a trimmed string changes nothing |
| JsText.TrimEmptyIff | index.js:396 | a value trims to the empty string exactly when it is all whitespace, so such a value falls back to "Unknown" |
| JsText.SqlRTrim | index.js:88 | the input is the result followed by spaces only, and the result does not end in a space |
| JsText.SqlRTrimOfPadded | index.js:88 | `RTRIM` of a value that is some text followed only by spaces gives back that text, as long as the text does not end in a space |
| JsText.TrimAfterSqlRTrim | index.js:88 | when the `RTRIM` of a value has no edge whitespace, JavaScript's trim of that value gives the same string |
| JsNumber.ParseInt | index.js:65 | a number is read only when the text, after its leading whitespace, starts with a sign or a decimal digit; a negative result needs a `-`; and text that starts with a decimal digit not followed by `x` always reads as a number |
| JsNumber.ParseSigned | index.js:65 | the same facts once the leading whitespace is gone |
| JsNumber.ParseMagnitude | index.js:65 | after the sign, a number is read only from a leading decimal digit, and always from one not followed by `x` |
| JsNumber.NatToString | index.js:65 | the decimal rendering is non-empty, all digits, and has no leading zero except for 0 itself |
| JsNumber.ParseIntReadsBack | index.js:65 | `parseInt` of a decimal integer followed by text that cannot continue the number gives back the integer |
| JsNumber.ParseIntRoundTrip | index.js:65 | `parseInt` of the decimal rendering of any integer, negative ones included, gives back the integer |
| JsNumber.ParseIntSkipsWhitespace | index.js:65 | leading whitespace does not change what `parseInt` reads |
| JsNumber.ParseIntNoDigits | index.js:65 | an empty string and "abc" read as NaN |
| JsNumber.ParseIntHex | index.js:65 | "0x1F" reads as 31 |
| JsNumber.ParseIntTrailingText | index.js:65 | " 12px" reads as 12 |
| JsNumber.OrDefault | index.js:65-66 | NaN or 0 gives the default and any other value is kept, so a non-zero default gives a non-zero result |
| JsNumber.CeilDiv | index.js:145 | the least integer not below `total / top`: for `top > 0`, `(n-1)*top < total <= n*top`, and the mirror image for `top < 0` |
| Paging.ParseParam | index.js:25-26 | a missing parameter reads as `parseInt` reads the text "undefined", which is NaN, and a present one as `parseInt` reads its text |
| JsNumber.ParseIntUndefined | index.js:25-26 | "undefined" reads as NaN |
| Paging.TopText | index.js:65 | `$top` is used when it is present and non-empty, otherwise `top`; the result is missing exactly when both are missing or `$top` is empty and `top` is missing |
| Paging.Resolve | index.js:65-68 | page size and page are never 0, `skip = (page-1)*top`, page 1 skips nothing, a page of 1 or more with a positive size never skips a negative number, and the count flag holds exactly when `$count` is the string "true" |
| Paging.ResolveData | index.js:25-27 | the same parameter rules for `/api/data`, which has no count flag |
| Paging.DefaultsWhenAbsent | index.js:25-27 | with no `$top`, `top` or `page`, the parameters are size 100, page 1, skip 0 |
| Paging.TopFromDollarTop | index.js:25 | a non-zero integer in `$top` is the page size on every route |
| Paging.TopFromAlias | index.js:65 | with `$top` missing or empty, `top` sets the page size of the dimension routes, while `/api/data` ignores it and uses 100 |
| Paging.TopFallsBack | index.js:65 | a page size that reads as NaN or 0 becomes 100 |
| Paging.GarbageDollarTopHidesAlias | index.js:65 | any non-empty `$top` that `parseInt` reads as NaN is still truthy, so `top` is not consulted and the size is 100 |
| Paging.LetterTopHidesAlias | index.js:65 | for instance `$top=abc` gives size 100 whatever `top` says |
| Paging.PageFallsBackIff | index.js:66 | the page is 1 exactly when `page` is missing, reads as NaN or 0, or is 1 |
| Paging.NegativePageKept | index.js:66-67 | a negative page is kept as it is and, with a positive size, gives a negative skip |
| Paging.Window | index.js:90 | the page holds at most `top` rows, and it is a contiguous run of the input holding exactly the rows whose 1-based position is in `(skip, skip+top]` |
| Paging.PageUnique | index.js:90 | any run of rows holding exactly the rows in the window is `Window` |
| Paging.SelectWhereIsWindow | index.js:42-47 | numbering the rows and keeping those whose `RowNum` passes the `WHERE` gives the same rows, in the same order, as `Window` |
| Paging.WindowSplit | index.js:90 | two adjacent windows joined are the window covering both |
| Paging.ConsecutivePages | index.js:90 | for a positive page size, page `p` followed by page `p+1` is one contiguous run of rows |
| Paging.PagesDisjoint | index.js:90 | for a positive page size, no row position is on two different pages |
| Paging.FirstPagesArePrefix | index.js:90 | pages 1 to `n` joined are the first `n*top` rows |
| Paging.TotalPages | index.js:143-145 | `totalPages` is present exactly when a count was taken and is not 0, and it is then `Math.ceil(count / top)`: for a positive size the least `n` with `n*top >= count`, for a negative size the least `n` with `n*top <= count` |
| Paging.NegativeSizePages | index.js:145 | a negative size is not rejected: 12 rows with `$top=-5` report -2 pages |
| Paging.TotalPagesCoverRows | index.js:143-145 | pages 1 to `totalPages` together are all the rows, the last of them is not empty, and the next page is empty |
| Rows.TrimOpt | index.js:112 | a missing value stays missing, and a present one comes out as the value with its edge whitespace cut off, leaving none at either end |
| Rows.Shape | index.js:106-137 | the entry meets the rename table: every field comes from its column, the nine text columns trimmed, a NULL text column becoming undefined (left out of the JSON) and a NULL pass-through column staying `null` |
| Rows.ShapeUnique | index.js:106-137 | the rename table fixes the entry completely |
| Rows.ShapeAll | index.js:106 | one entry per row, in the same order, each meeting the rename table for its row |
| Rows.ShapeAllSlice | index.js:106 | shaping a slice of the rows gives the same slice of the shaped rows |
| Rows.TrimsAuditUser | index.js:112 | a stored user "  jdoe  " is sent as "jdoe" |
| Summary.GroupKey | index.js:396 | the key is never empty: the optional-field value when it is non-empty, otherwise "Unknown" |
| Summary.Amount | index.js:406 | a NULL amount counts as 0, and any other amount as itself |
| Summary.Classify | index.js:408-412 | revenue exactly when the account is present and starts with "4", cost exactly when it starts with "5", neither otherwise |
| Summary.AddUpGroups | index.js:395-413 | after the loop there is one group per distinct key not hidden by an inherited name; revenue and cost are the sums over the group's entries, and gross profit is still 0 |
| Summary.SetGrossProfit | index.js:415-417 | same keys and same revenue and cost, and every gross profit is revenue minus cost |
| Summary.Summarize | index.js:393-417 | one group per distinct key, each holding the expected revenue, cost and gross profit |
| Summary.SummarizeAsWritten | index.js:393-417 | as written, the groups whose key names an inherited `Object.prototype` property are missing, and every other group is correct |
| Summary.ConstructorGroupLost | index.js:398 | an entry with value "constructor" has a group that the code as written never creates |
| Summary.RetailExample | index.js:395-417 | a revenue of 100 and a cost of 40 in group "Retail" give the totals 100, 40 and 60 |
| Summary.OtherAccountsMakeZeroGroup | index.js:398-404 | a group whose entries are neither revenue nor cost is still reported, with zero totals |
| Summary.OtherAccountsAddNothing | index.js:408-412 | entries on other accounts add nothing to revenue or cost |
| Summary.UnknownGroupIff | index.js:396 | a row lands in "Unknown" exactly when its value is NULL, blank, or "Unknown" itself after trimming |
| Summary.GroupsConserveTotals | index.js:395-413 | the per-group sums over all groups add up to the sum over all entries, for revenue and for cost |
| Endpoints.Tag | index.js:88 | each dimension tag is non-empty and has no edge whitespace |
| Endpoints.TaggedIff | index.js:88 | the dimension filter keeps a row exactly when its optional field is the dimension's tag followed by nothing but spaces |
| Endpoints.NumberOrderIsNumeric | index.js:270 | on the sector routes, batch numbers written as integers are ordered exactly as the integers are |
| Endpoints.TextOrderDiffers | index.js:84 | batch numbers 2, 10 and 30 sorted descending as text come out as 30, 2, 10, not in numeric order |
| Endpoints.ListPage | index.js:74-146 | the entries are the page of the shaped rows, at most `top` of them; `count` is present exactly when requested and then equals the total; `totalPages` is present exactly when the count is present and non-zero, and it is then `Math.ceil(total / top)`, which for a positive size is the least number of pages holding the total |
| Endpoints.ListEndpoint | index.js:61-146 | page size and page in the response are never 0, and `count` is present exactly when `$count` is "true" |
| Endpoints.TaggedEntry | index.js:88 | a row that passes the dimension filter is sent with the tag itself as its optional field |
| Endpoints.ListEntriesTagged | index.js:88 | every entry a dimension route sends carries the dimension's tag |
| Endpoints.ListKeepsOrder | index.js:84 | the entries sent keep the order the route's query gives the rows |
| Endpoints.DataPage | index.js:32-51 | with their `RowNum` removed, the rows sent are exactly the window, in order; there are at most `top` of them, and each `RowNum` lies in the window and points back at its row |
| Endpoints.DataEndpoint | index.js:23-59 | with no `$top` and no `page`, the rows sent are the first 100 rows, or all of them when there are fewer |
| Endpoints.SummaryEndpoint | index.js:342-421 | with the dictionary corrected (see Findings), one group per distinct key of the shaped rows, each holding the expected totals |
| Endpoints.SummaryEndpointAsWritten | index.js:342-421 | as written, one group per distinct key of the shaped rows except the keys that name an inherited `Object.prototype` property, each group holding the expected totals |

## Left out

- Express routing, CORS, environment configuration and the `listen` call: framework plumbing with no logic of its own.
- The connection pool, `sql.connect`, `pool.close` and `async`/`await`: I/O and resource handling. Every query result is a parameter.
- The error path: logging, and the status 500 with a fixed body. These are side effects with nothing to state.
- The SQL itself is not evaluated: the join on `BATCHNBR`, the tag filter, the `ORDER BY` and `COUNT(*)` run in the database.
  - The handlers take the filtered, ordered rows as input.
  - The tag filter and the two row orders are predicates on that input. `RTRIM` is modelled, but SQL Server's collation is not: a case-insensitive collation would also match "solution".
- The count query and the page query are separate statements. The model takes the count as its own parameter and does not assume it equals the number of rows.
- `CAST(BATCHNBR AS INT)`: the sector order reads batch numbers with `parseInt`. A batch number SQL Server cannot convert makes that query fail, which is not modelled.
- Paging.Resolve: `sql.Int` is a 32-bit parameter. The model keeps unbounded integers, so a huge `top` or `skip` that the driver would reject is not modelled.
- Amounts are exact reals, not IEEE doubles. Rounding, and any dependence on the order of summation, are not modelled.
- Summary.Amount: the amount column is a number or NULL. `parseFloat` of text, such as a DECIMAL returned as a string, is not modelled.
- JSON serialisation is not modelled. A `None` in a trimmed field of an entry stands for `undefined`, a key that `res.json` leaves out; a `Null` in a pass-through field stands for a `null` that is sent.
- Strings are sequences of Unicode code points. JavaScript strings are UTF-16, which matters only for characters outside the Basic Multilingual Plane.
- A query parameter given twice arrives as an array. The model reads each parameter as one optional string.
- The key order of the JSON objects, and the order in which `for ... in` visits keys, are not modelled. The summary is a `map`.
- Endpoints.SummaryEndpoint: it models the corrected dictionary, so for a key such as "constructor" it reports a group the code as written does not send. Endpoints.SummaryEndpointAsWritten models the code as written.
- Pages are cut from one fixed sequence of rows. `ROW_NUMBER() OVER (ORDER BY GLJED.BATCHNBR ...)` ties all rows of a batch, and the join on `BATCHNBR` alone multiplies them. SQL Server may order tied rows differently in the request for one page and the request for the next. Paging.ConsecutivePages, Paging.FirstPagesArePrefix and Paging.TotalPagesCoverRows hold only when both requests see the same order.
- The outer `SELECT * FROM (...) AS Paged WHERE RowNum ...` has no `ORDER BY`, so SQL Server does not promise to return a page in `RowNum` order. The model takes each page in `RowNum` order, and Endpoints.ListKeepsOrder depends on this.
- Summary.SummarizeAsWritten models only the lost group. The code as written also writes `revenue` and `cogs` onto the inherited object, which can leak into later requests; that effect is not modelled.
- The optional-field join uses `BATCHNBR` alone, as the code does. A composite key such as (`TRANSNBR`, `JOURNALID`) is not modelled.

## Findings

| source | as written | input that shows it | evidently intended | confidence | as-written member | corrected member |
|---|---|---|---|---|---|---|
| index.js:393-404 | the summary is a plain `{}`, so `!summary[key]` finds an inherited property for keys such as "constructor", "toString" or "hasOwnProperty", and no group is created | one entry with optional-field value "constructor", account "40001" and amount 100: the response has no "constructor" group, though its revenue is 100 | one group for every distinct key, as with a dictionary that has no inherited entries | medium, not executed | Summary.SummarizeAsWritten, Summary.ConstructorGroupLost, Endpoints.SummaryEndpointAsWritten | Summary.Summarize, Endpoints.SummaryEndpoint |

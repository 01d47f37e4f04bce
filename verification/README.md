# Food-wastage SQL reports, modelled in Dafny

This project models the "SQL Results" part of the food-management
Streamlit application: a fixed catalog of thirteen named, read-only
aggregate reports over four tables (Providers, Receivers, Food_Listings,
Claims), and the dispatch that turns four optional sidebar filters
(city, provider type, food type, meal type) into the positional parameters
each report's query binds.

Every filter is the conjunct `(? = '' OR column LIKE ?)`, bound to the pair
`(v, "%v%")`. An empty value therefore admits every row. A non-empty value
asks that the column match `%v%`. For a value without `%` or `_` that means
the column contains `v`, ignoring ASCII case.

The database is not called. Instead the model states the semantics of the
SQL the queries use:

- tables are sequences of immutable records (bags with a scan order);
- `WHERE` is a filter;
- `JOIN` is a nested-loop equi-join;
- `LEFT JOIN` pairs an unmatched row with `None` (NULL);
- `GROUP BY` with integer `SUM`/`COUNT` yields one row per key that occurs;
- `ORDER BY … DESC` is a stable descending sort on the aggregate;
- `LIKE` is SQLite's default operator: `%` matches any run, `_` matches one character, and ASCII case is folded.

Modules, following the structure of the program:

| module | file | what it holds |
|---|---|---|
| `Pattern` | pattern.dfy | SQLite `LIKE`, the `%v%` wrapping, case-insensitive containment |
| `Schema` | schema.dfy | the four tables, the `Completed` status |
| `Relational` | relational.dfy | `Where`, `Join`, `LeftJoin`, `GroupBy`, `SortDesc`, `Aggregate` |
| `Filters` | filters.dfy | the `Filter` record, the parameter tuple `Params`, the bound conjuncts |
| `Catalog` | catalog.dfy | the thirteen reports: names, declared conjuncts, placeholder counts, columns, ordering |
| `Reports` | reports.dfy | each report as a function of the tables and the bound parameters |
| `ReportLaws` | report_laws.dfy | empty filters, filter meaning, counts and totals across reports, percentages |
| `Executor` | executor.dfy | executing a report (arity check, result table) and running one by name |
| `Scenarios` | scenarios.dfy | small databases whose report results are worked out in full |

Three details of the code that the model follows:

- A filter value is bound to `LIKE` as `%v%` without escaping, so `%` and `_` in the value act as wildcards. Containment is proved only for wildcard-free values (`Pattern.WrappedLiteralIsContainment`). The filter `_` admits every non-empty column (`Pattern.UnderscoreFilterMatchesAnyNonEmpty`).
- The percentage is `ROUND(COUNT(*) * 100.0 / (SELECT COUNT(*) FROM Claims), 2)`. The model keeps its exact numerator and denominator (`Reports.StatusShares`).
- `SUM` over no rows without `GROUP BY` is NULL, so "Total Food Quantity from All Providers" is `None` when no listing passes.

## Model

| member | source | states |
|---|---|---|
| Pattern.Like | app.py:66 | definition: SQLite's default `LIKE`, where `%` matches any run of characters, `_` matches any one character, and every other pattern character matches the same letter up to ASCII case |
| Pattern.Wrap | app.py:203 | the bound pattern is the filter value with one `%` before and one after |
| Pattern.PercentMatchesAll | app.py:66 | a `%` pattern matches every string |
| Pattern.WrappedLiteralIsContainment | app.py:72 | for a value with no `%` or `_`, `col LIKE '%v%'` holds exactly when `col` contains `v`, ignoring ASCII case |
| Pattern.UnderscoreFilterMatchesAnyNonEmpty | app.py:72 | filter values are not escaped: the value `_` matches every non-empty column, and only those |
| Filters.CityOnlyReports | app.py:202 | definition: the two names for which the dispatch binds only the city pair, "Providers & Receivers per City" and "Contact Info of Providers in City" |
| Filters.Params | app.py:202-213 | the tuple has 2 entries exactly for the two city-only reports and 8 otherwise; its first pair is `(city, %city%)`; every pair is `(v, %v%)` |
| Filters.Compile | app.py:205-212 | a declared conjunct list yields two parameters per conjunct |
| Filters.CompileBindsEachField | app.py:205-212 | pair `i` of the compiled tuple is `(v, %v%)` for the `i`-th declared field |
| Filters.Conjunct | app.py:66 | definition: `(? = '' OR col LIKE ?)` with its two parameters bound holds when the first is empty or the column matches the second |
| Filters.ListingPasses | app.py:72-75 | definition: the four conjuncts on location, provider type, food type and meal type, reading parameter pairs 0 to 3 in that order |
| Filters.CityPasses | app.py:82 | definition: the single conjunct on the provider's city, reading parameter pair 0 |
| Filters.BoundListingFilter | app.py:72-75 | with the 8-entry tuple, the four conjuncts hold exactly when each non-empty filter value's `%v%` matches its listing column |
| Filters.BoundCityFilter | app.py:66 | with the 2-entry tuple, the city conjunct holds exactly when the city filter is empty or `%city%` matches |
| Filters.NoFilterPassesAll | app.py:202-213 | with all filters empty, every conjunct of either tuple shape holds for every row |
| Filters.LiteralFilterIsContainment | app.py:72-75 | for wildcard-free values, matching all four conjuncts is containment of each non-empty value in its column |
| Filters.LiteralCityFilter | app.py:82 | for a wildcard-free city value, the city conjunct is containment in the provider's city |
| Catalog.AllReports | app.py:200 | definition: the thirteen reports in the dictionary's insertion order, which is the order `list(queries.keys())` offers them in the picker |
| Catalog.Name | app.py:60-181 | definition: each report's dictionary key, character for character (keys at lines 60, 69, 79, 84, 96, 104, 114, 124, 135, 148, 159, 170 and 181) |
| Catalog.ReportNames | app.py:59-192 | the picker offers thirteen pairwise distinct names: every report's name is among them, and every one of them names a report |
| Catalog.NamesIdentifyReports | app.py:59-192 | two reports share a name only if they are the same report |
| Catalog.CatalogListsEachReportOnce | app.py:59-192 | every report is in the catalog, and no report is listed twice |
| Catalog.Lookup | app.py:204 | looking a name up finds a report with that name, and finds nothing exactly when the name is not in the catalog |
| Catalog.LookupInvertsName | app.py:204 | looking up a report's own name finds that report |
| Catalog.Fields | app.py:59-192 | definition: the conjuncts each query's `WHERE` declares, the city alone for "Providers & Receivers per City" and "Contact Info of Providers in City", all four in city, provider type, food type, meal type order for the other eleven |
| Catalog.Placeholders | app.py:59-192 | definition: the number of `?` in each query text, 2 for the two city-only queries and 8 for the others |
| Catalog.Columns | app.py:59-192 | definition: each query's output column names in `SELECT` order |
| Catalog.OrderedDescending | app.py:77-190 | definition: the eight queries ending in `ORDER BY … DESC` (lines 77, 94, 112, 122, 133, 146, 179 and 190); the others are the city, contact, grand-total, percentage and average queries |
| Catalog.PlaceholdersAreTwoPerConjunct | app.py:66 | each query's `?` count is twice its number of filter conjuncts |
| Catalog.CityOnlyNamesDeclareCityOnly | app.py:202 | the names the dispatch tests are exactly the reports whose query has only the city conjunct |
| Catalog.ParamsFitQuery | app.py:202-213 | for every report and filter, the name-chosen tuple is the tuple its declared conjuncts call for, so its length equals the query's placeholder count (2 or 8) |
| Relational.Where | app.py:72-75 | `WHERE` keeps exactly the rows satisfying the condition, never more rows than it was given, and every row when all rows satisfy it |
| Relational.WhereMultiplicity | app.py:72-75 | `WHERE` keeps every copy of a satisfying row and no copy of any other row, so duplicates still count |
| Relational.WhereAgrees | app.py:140 | two conditions that agree on every row select the same rows |
| Relational.Matches | app.py:88 | the partners of one row are exactly the right rows the join condition pairs it with |
| Relational.MatchesMultiplicity | app.py:88 | one row is paired once with every copy of each right row it joins with, and with nothing else |
| Relational.Join | app.py:87-88 | an inner join holds exactly the pairs from both tables that satisfy the condition |
| Relational.JoinMultiplicity | app.py:87-88 | a satisfying pair appears as many times as its left row's copies times its right row's copies; any other pair never appears |
| Relational.PresentMatches | app.py:65 | the outer join's matched pairs for one row, empty exactly when the row has no partner |
| Relational.LeftJoin | app.py:65 | a left join keeps every matching pair and pairs every partnerless left row with NULL; nothing else appears |
| Relational.JoinSizeByPartners | app.py:152 | when each left row has at most one partner, the join has at most as many rows as the left table, and exactly as many when each has one |
| Relational.SumOfOnesIsLength | app.py:150 | `COUNT(*)` summed over all rows is the number of rows |
| Relational.OccurringKeyCountsPositive | app.py:157 | a group that some row falls into has a count of at least 1 |
| Relational.StrongerFilterCountsFewer | app.py:140 | strengthening the `WHERE` condition never raises any group's count |
| Relational.DistinctKeys | app.py:67 | the group keys are exactly the keys occurring in the rows, each once |
| Relational.GroupsPreserveTotal | app.py:76 | group sums over keys covering every row add up to the table's sum |
| Relational.GroupBy | app.py:76 | one output row per occurring key, keys distinct, each carrying its group's sum; group sums add up to the table sum |
| Relational.InsertDesc | app.py:77 | inserting into a descending list keeps it descending and adds exactly the inserted row |
| Relational.SortDesc | app.py:77 | the sorted rows are a permutation of the input, non-increasing in the measure |
| Relational.SortDescKeepsTotal | app.py:77 | sorting keeps the total of the measures |
| Relational.SortDescKeepsKeysDistinct | app.py:77 | sorting keeps one row per key |
| Relational.Aggregate | app.py:76-77 | `GROUP BY … ORDER BY SUM DESC` is non-increasing, one row per occurring key, each with its group's sum, and the total is preserved |
| Reports.ClaimFood | app.py:127 | definition: the join condition `c.Food_ID = f.Food_ID` |
| Reports.ClaimReceiver | app.py:87 | definition: the join condition `c.Receiver_ID = r.Receiver_ID` |
| Reports.ClaimedListing | app.py:88 | definition: `c.Food_ID = f.Food_ID` applied to a claim already joined with its receiver |
| Reports.ListedBy | app.py:139 | definition: `f.Provider_ID = p.Provider_ID` applied to a claim already joined with its listing |
| Reports.OwnedBy | app.py:184 | definition: the join condition `f.Provider_ID = p.Provider_ID` |
| Reports.SameCity | app.py:65 | definition: the left-join condition `p.City = r.City` |
| Reports.ClaimListings | app.py:126-127 | definition: `Claims c JOIN Food_Listings f ON c.Food_ID = f.Food_ID` |
| Reports.ClaimReceiverListings | app.py:86-88 | definition: `Claims c JOIN Receivers r ON c.Receiver_ID = r.Receiver_ID JOIN Food_Listings f ON c.Food_ID = f.Food_ID`, joined left to right |
| Reports.ClaimListingProviders | app.py:137-139 | definition: `Claims c JOIN Food_Listings f ON c.Food_ID = f.Food_ID JOIN Providers p ON f.Provider_ID = p.Provider_ID`, joined left to right |
| Reports.ListingProviders | app.py:183-184 | definition: `Food_Listings f JOIN Providers p ON f.Provider_ID = p.Provider_ID` |
| Reports.ProviderReceivers | app.py:64-65 | definition: `Providers p LEFT JOIN Receivers r ON p.City = r.City` |
| Reports.IsSuccessful | app.py:140 | definition: the condition `c.Status = 'Completed'`, an exact string comparison |
| Reports.ListingRows | app.py:71-75 | the listings the listing reports aggregate are exactly those passing the four conjuncts |
| Reports.ClaimListingRows | app.py:126-131 | the claim/listing rows are exactly the pairs joined on `Food_ID` whose listing passes the conjuncts |
| Reports.ClaimReceiverListingRows | app.py:86-92 | the claim/receiver/listing rows are exactly the triples joined on `Receiver_ID` and `Food_ID` whose listing passes |
| Reports.SuccessfulClaimRows | app.py:137-144 | the successful-claim rows are exactly the joined claims with status `Completed` whose listing passes |
| Reports.ProviderClaimRows | app.py:137-144 | the same join and conjuncts without the status condition |
| Reports.DonationRows | app.py:183-188 | the listing/provider rows are exactly the pairs joined on `Provider_ID` whose listing passes |
| Reports.CityRows | app.py:64-66 | the per-city rows come from providers whose city passes, each paired with NULL or a receiver of the same city |
| Reports.CityCounts | app.py:61-67 | one row per occurring city, cities distinct, each carrying the numbers of distinct provider and receiver IDs in it |
| Reports.CityGroupProviders | app.py:62 | the distinct provider IDs counted in a passing city are the IDs of that city's providers |
| Reports.CityGroupReceivers | app.py:63 | the distinct receiver IDs counted in a passing provider city are the IDs of that city's receivers; NULLs are not counted |
| Reports.ProvidersReceiversPerCity | app.py:60-67 | a city is listed exactly when it passes the filter and has a provider; each row carries its number of distinct provider and receiver IDs |
| Reports.ContactInfoOfProviders | app.py:79-82 | the contact rows are exactly the name, contact and city of the providers whose city passes, one row per passing provider row, in table order |
| Reports.ProviderTypeWithMostFood | app.py:69-77 | total quantity per provider type, non-increasing |
| Reports.TotalOf | app.py:97 | `SUM` without `GROUP BY` is NULL exactly when there are no rows, and otherwise the sum of the quantities |
| Reports.TotalFoodQuantity | app.py:96-102 | NULL exactly when no listing passes; otherwise the sum of the passing quantities |
| Reports.CityWithMostListings | app.py:104-112 | listings per location, non-increasing |
| Reports.MostCommonFoodTypes | app.py:114-122 | listings per food type, non-increasing |
| Reports.TotalDonatedByProvider | app.py:181-190 | quantity per provider name over listings joined with providers, non-increasing |
| Reports.ReceiversWithMostClaims | app.py:84-94 | claimed quantity per receiver name, non-increasing |
| Reports.ClaimsPerFoodItem | app.py:124-133 | claims per food name, non-increasing |
| Reports.ProviderWithMostSuccessfulClaims | app.py:135-146 | completed claims per provider name, non-increasing |
| Reports.MostClaimedMealType | app.py:170-179 | claims per meal type, non-increasing |
| Reports.ClaimsStatusPercentage | app.py:148-157 | the numerators count filtered joined claims per status, each at least 1; the denominator is the row count of Claims, unfiltered |
| Reports.Means | app.py:160 | per receiver name, the quantity sum and a positive count whose quotient is the average |
| Reports.AverageQuantityPerReceiver | app.py:159-168 | one row per receiver name occurring in the filtered join, with its quantity sum and positive claim count |
| ReportLaws.EmptyFiltersKeepEveryRow | app.py:72-75 | with every filter empty, each 8-parameter report aggregates its whole join (the successful-claims report its `Completed` rows), and the total is the unfiltered total |
| ReportLaws.EmptyCityFilterKeepsEveryProvider | app.py:66 | with the city filter empty, the city-only reports cover every provider and list every provider city |
| ReportLaws.ListingFilterSelects | app.py:208-211 | a listing is aggregated exactly when every non-empty filter value's `%v%` matches its column; for wildcard-free values, exactly when it contains them |
| ReportLaws.ClaimFilterSelects | app.py:128-131 | a joined claim is counted exactly when its listing matches every non-empty filter value |
| ReportLaws.CityFilterSelects | app.py:60-67 | a city is listed exactly when it has a provider and the city filter is empty or matches it; for wildcard-free values, contains it |
| ReportLaws.ContactFilterSelects | app.py:79-82 | a provider's contact row is listed exactly when the city filter is empty or its `%city%` matches the provider's city |
| ReportLaws.NoListingPassesNoRows | app.py:72-75 | when the filters reject every listing, no listing-filtered report has a source row, the successful-claims report included |
| ReportLaws.MostComesFirst | app.py:77 | the first row of an ordered report carries an aggregate at least as large as any group's |
| ReportLaws.SuccessfulClaimsBounded | app.py:135-146 | a provider's successful-claim count is at least 1 and at most its count of all filtered claims |
| ReportLaws.OnlyCompletedClaimsCount | app.py:140 | with no `Completed` claim the successful-claims report is empty |
| ReportLaws.UniqueIdsJoinOnce | app.py:152 | with unique `Food_ID`s a claim joins at most one listing, and exactly one when its listing exists |
| ReportLaws.StatusCountsAddUp | app.py:150 | the percentage numerators add up to the number of filtered joined claims |
| ReportLaws.PercentagesAtMostWhole | app.py:150 | with unique `Food_ID`s the numerators add up to at most the denominator |
| ReportLaws.SharedListingIdCountsClaimTwice | app.py:150-152 | the unique-`Food_ID` condition is needed: a single claim whose `Food_ID` two listings share is counted twice, so with empty filters the numerators add up to 2 while the denominator is 1 |
| ReportLaws.PercentagesCoverEveryClaim | app.py:148-157 | with empty filters, unique `Food_ID`s and every claim's listing present, the numerators add up to exactly the denominator |
| ReportLaws.ShareDenominatorPositive | app.py:150 | whenever a status row exists, the denominator is at least 1 |
| ReportLaws.EachShareAtMostWhole | app.py:150 | with unique `Food_ID`s each status's numerator lies between 1 and the denominator |
| ReportLaws.CityWithoutReceiversShowsZero | app.py:63-65 | every listed city has at least one provider, and it shows 0 receivers exactly when no receiver lives there |
| ReportLaws.CityWithoutReceiversKept | app.py:65 | a passing provider city without receivers still gets a row, with 0 receivers |
| ReportLaws.GroupsExistIffRows | app.py:76 | a grouped report is empty exactly when no row reaches it |
| ReportLaws.GrandTotalSplitsByProviderType | app.py:96-102 | the grand total is NULL exactly when the per-type report is empty, and otherwise equals the sum of the per-type totals |
| ReportLaws.ListingCountsAgree | app.py:104-122 | listings counted per city and per food type both add up to the number of passing listings |
| ReportLaws.ClaimCountsAgree | app.py:124-179 | claims per food item, per meal type and per status all add up to the number of filtered joined claims |
| ReportLaws.AveragesMatchClaimedTotals | app.py:159-168 | each average's quantity sum is that receiver's total in the most-claims report |
| Executor.MeasureRows | app.py:77 | a non-increasing grouped result gives a table whose second column is non-increasing |
| Executor.TotalRow | app.py:97 | the grand total is a single one-cell row, NULL exactly when the sum is NULL, and otherwise the sum as an integer |
| Executor.Rows | app.py:59-192 | every result row has one cell per declared column, and the grand total has one row |
| Executor.OrderedRowsDescend | app.py:77 | the reports whose query ends in `ORDER BY … DESC` return integers in their measure column, largest first |
| Executor.Execute | app.py:53-57 | a parameter count different from the placeholder count is refused; otherwise the result has the query's columns and the shape above |
| Executor.RunReport | app.py:200-213 | running a name fails exactly when it is not in the catalog; a catalog name is never refused for arity |
| Executor.RunReportBindsDeclaredFilters | app.py:202-213 | running a report by name binds exactly the parameters its declared conjuncts call for, and succeeds |
| Scenarios.PerCityUnfiltered | app.py:60-67 | providers in Austin and Dallas and a receiver in Austin give `[(Austin, 1, 1), (Dallas, 1, 0)]` |
| Scenarios.PerCityFilteredToAustin | app.py:60-67 | the same data filtered on "Austin" gives `[(Austin, 1, 1)]` |
| Scenarios.StatusSharesUnfiltered | app.py:148-157 | three completed and one pending claim give 3 of 4 and 1 of 4 |
| Scenarios.StatusSharesFilteredOut | app.py:148-157 | a filter no listing passes gives no status rows, while the denominator still counts 4 claims |
| Scenarios.UnknownReportFails | app.py:204 | a name outside the catalog is an unknown-report error |

## Left out

- The EDA section (CSV upload, pandas statistics, charts) and the Prediction section (pickle load and an opaque model call): they are file I/O, floating point and foreign calls.
- The Streamlit widgets and navigation: they are UI. The four filter values and the selected name are parameters of `Executor.RunReport`.
- `run_query`'s connection handling: connect, execute and close are I/O. Their failures (store unavailable, query rejected by the store) are outside the model. The only failure modelled is the driver refusing a wrong number of bindings.
- `AVG(f.Quantity)` and `ROUND(… * 100.0 / …, 2)`: these are floating point. The model keeps the exact integer sum and count, and the exact numerator and denominator.
- Row order of a `GROUP BY` without `ORDER BY`, and the order of ties under `ORDER BY … DESC`: SQLite leaves both unspecified. The model uses first-occurrence order and a stable sort. The general lemmas hold for any order, but `Scenarios.PerCityUnfiltered` and `Scenarios.StatusSharesUnfiltered` state exact result sequences, so they fix the first-occurrence order.
- NULL column values in the tables: every column is assumed non-NULL, so `COUNT(c.Claim_ID)` is modelled as `COUNT(*)`, and a NULL name or type is never a group key.
- Unicode case folding: SQLite's default `LIKE` folds only ASCII letters, and so does the model.
- 64-bit integer overflow of `SUM`: integers are unbounded. The model does not reproduce SQLite's overflow error.
- Idempotence of running a report twice has no lemma: every report is a pure function of the tables and the filters, so it holds by construction.

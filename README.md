# federal-bill-statistics: statistics, deciles, enrichment and site index

This project is a Dafny model of the computational core of `federal-bill-statistics`. That program turns parsed U.S. federal bills into a static web site. The model covers:

- **Corpus statistics** (`fbs/commands/calculate_stats.py`): the metric set of one bill, the per-metric mean, median, minimum and maximum, and the raw value lists kept in the statistics file.
- **Decile index** (`fbs/render/bill.py`): the nine inclusive cut points of every metric, and `get_decile_number`, which places a value in bucket 1..10.
- **Bill enrichment** (`fbs/render/bill.py`):
  - the nine decile fields;
  - the entity counter;
  - the header shift of the rendered commentaries;
  - the keyword string, the version description and the download URLs.
- **Site index** (`fbs/commands/build_site.py`):
  - grouping bills by month;
  - the recent/archive split of the main index;
  - the sitemap entry list;
  - the stripped `index.json` records;
  - `robots.txt`.
- **Migration** (`fbs/commands/migrations/add_num_characters.py`): it back-fills `num_characters` on a cached bill and on its sections.

The modules follow the source files:

| module | file | models |
|---|---|---|
| `Wrappers` | `wrappers.dfy` | `Option` and `Result`. |
| `Json` | `json.dfy` | Decoded JSON values, Python's `len` on them, and `dict.get`. |
| `Strings` | `strings.dfy` | `str.replace`, `str.join`, `str.split` and `in` on strings, plus Python's order on `str`. |
| `Sorting` | `sorting.dfy` | The ascending sort of `statistics`, `min`/`max`, and the stable `sort(key=…, reverse=True)` / `sorted(…, reverse=True)` on string keys. |
| `Stats` | `stats.dfy` | `calculate_stats.py`. |
| `Deciles` | `deciles.dfy` | The quantiles and `get_decile_number` of `bill.py`. |
| `Headers` | `headers.dfy` | The h1–h4 header shift of `bill.py`. |
| `Enrichment` | `enrichment.dfy` | The rest of `enrich_bill_data` in `bill.py`. |
| `Site` | `site.dfy` | `build_site.py`. |
| `Migration` | `migration.dfy` | `add_num_characters.py`. |

Code that works by steps is modelled by methods with loops. Each such method is proved equal to a specification function, and the properties are proved about that function. Examples:

- get_decile_number;
- the loop of `load_bill_stats`;
- the aggregation and value loops;
- the entity counter;
- the header-shift loop;
- the grouping, main-index, sitemap and index.json loops;
- the migration.

Calls into code outside the repository become function parameters:

- `get_bill_slug`;
- `markdown.markdown`;
- `get_ari_raw`;
- `get_ari_years_education`;
- `str.lower().strip()`;
- the `BILL_VERSION_CODES` table;
- `datetime.now()`.

## Model

| member | source | states |
|---|---|---|
| Deciles.Quantiles | fbs/render/bill.py:50-53 | `statistics.quantiles(values, n=10, method="inclusive")` fails exactly when there are no values; otherwise it yields nine cut points. |
| Deciles.CutPointsOrdered | fbs/render/bill.py:50-53 | On sorted data with at least two points, the inclusive cut points are non-decreasing. They also lie between the first and the last value. |
| Deciles.QuantilesAscending | fbs/render/bill.py:50-53 | The nine deciles of any non-empty value list are in non-decreasing order. |
| Deciles.QuantilesWithinRange | fbs/render/bill.py:50-53 | Every decile lies between the minimum and the maximum of the values. |
| Deciles.SingleValueDeciles | fbs/render/bill.py:50-53 | A corpus of one value gives nine copies of that value, and the value itself lands in bucket 1. |
| Deciles.TenValuesExample | fbs/render/bill.py:50-53 | For the values 10, 20, …, 100 the deciles are exactly 19, 28, 37, 46, 55, 64, 73, 82, 91. |
| Deciles.AttachDeciles | fbs/render/bill.py:50-53 | The loop of `load_bill_stats` fails exactly when some metric has an empty value list. Otherwise every metric keeps its stored entry and gains the deciles of its values. |
| Deciles.FirstAtLeast | fbs/render/bill.py:75-77 | The result is the index of the first boundary that is at least the value, or the list length if none is. |
| Deciles.Bucket | fbs/render/bill.py:75-78 | If some boundary is at least the value, the bucket is one more than the first such index. If every boundary is below the value, the bucket is 10. |
| Deciles.GetDecileNumber | fbs/render/bill.py:65-78 | The loop returns at the first boundary that is at least the value, else 10. Its result equals `Bucket`. |
| Deciles.BucketOfNine | fbs/render/bill.py:65-78 | With nine boundaries the bucket is in 1..10. It is k (k ≤ 9) exactly when the value is at most boundary k and above all earlier ones. It is 10 exactly when the value is above all nine. |
| Deciles.BucketMonotone | fbs/render/bill.py:75-78 | A larger value never gets a smaller bucket. |
| Deciles.TenDecilesBoundary | fbs/render/bill.py:75-78 | With the example deciles, 46 (equal to the fourth boundary) is in bucket 4 and 47 is in bucket 5. |
| Deciles.TenDecilesEnds | fbs/render/bill.py:75-78 | With the example deciles, 19 is in bucket 1, 91 in bucket 9 and 100 in bucket 10. |
| Deciles.TensSummary | fbs/commands/calculate_stats.py:77-82 | The summary of 10, 20, …, 100 is mean 55, median 55, min 10, max 100. |
| Sorting.SortAscending | fbs/commands/calculate_stats.py:79 | The ascending sort that `median` and `quantiles` apply. It keeps the length; order and permutation are in `Sorting.SortAscendingSorted`. |
| Sorting.MinOf | fbs/commands/calculate_stats.py:80 | Definition: `min(values)`; see `Sorting.MinOfIsLeast`. |
| Sorting.MaxOf | fbs/commands/calculate_stats.py:81 | Definition: `max(values)`; see `Sorting.MaxOfIsGreatest`. |
| Sorting.SortDescendingBy | fbs/commands/build_site.py:146 | `sort(key=…, reverse=True)` as an insertion sort. It keeps the length; order, permutation and stability are in the two lemmas below. |
| Sorting.SortAscendingSorted | fbs/commands/calculate_stats.py:79 | The ascending sort used by `median` and `quantiles` gives an ordered permutation of its input. |
| Sorting.SortAscendingOfAscending | fbs/commands/calculate_stats.py:79 | Sorting data that is already in order changes nothing. |
| Sorting.MinOfIsLeast | fbs/commands/calculate_stats.py:80 | `min(values)` is one of the values and no value is smaller. |
| Sorting.MaxOfIsGreatest | fbs/commands/calculate_stats.py:81 | `max(values)` is one of the values and no value is larger. |
| Sorting.SortedEnds | fbs/commands/calculate_stats.py:79-81 | The sorted values start with the minimum and end with the maximum. Every element lies between the two. |
| Sorting.SortDescendingSorted | fbs/commands/build_site.py:145-146 | `sort(key=…, reverse=True)` gives a permutation of its input in non-increasing key order. |
| Sorting.SortDescendingStable | fbs/commands/build_site.py:145-146 | The reverse sort is stable: the elements with one key keep their input order. |
| Stats.GetMetrics | fbs/commands/calculate_stats.py:25-58 | The metric set has exactly the sixteen metric keys. Each raw field is the record's value or 0. `ari_raw` is the readability score of the prefilled set, and `ari_years_education` is the grade level of that score. |
| Stats.StoredScoresDoNotSurvive | fbs/commands/calculate_stats.py:50-56 | The record's own `ari_years_education` is never read. If the readability formula reads only the raw fields, the record's `ari_raw` and `ari_age` do not affect the result either. |
| Stats.MetricSetsShareKeys | fbs/commands/calculate_stats.py:35-58 | Every metric set built by `get_metrics` holds every metric key, so no column lookup can fail. |
| Stats.Column | fbs/commands/calculate_stats.py:76 | `[m[metric] for m in metrics]`: one value per bill, in corpus order. |
| Stats.AddSummary | fbs/commands/calculate_stats.py:77-82 | Adding a metric's summary keeps every entry equal to the summary of its own column. |
| Stats.CalculateAggregateStats | fbs/commands/calculate_stats.py:61-84 | It fails exactly on an empty corpus, or when a key of the first metric set is missing from some bill. Otherwise it yields one entry per key of the first set, each the mean, median, min and max of that key's column. |
| Stats.Mean | fbs/commands/calculate_stats.py:78 | Definition: `statistics.mean` as sum over count, in exact arithmetic. Bounded by `Stats.MeanBounds`. |
| Stats.Median | fbs/commands/calculate_stats.py:79 | Definition: `statistics.median` on the sorted values. Read off by `Stats.MedianOfAscending`. |
| Stats.Summarize | fbs/commands/calculate_stats.py:77-82 | Definition: the four-field dictionary of mean, median, min and max. Ordered by `Stats.SummaryOrdered`. |
| Stats.MedianOfAscending | fbs/commands/calculate_stats.py:79 | On ordered data the median is the middle element, or the average of the two middle elements. |
| Stats.MeanBounds | fbs/commands/calculate_stats.py:78 | The mean lies between the minimum and the maximum. |
| Stats.SummaryOrdered | fbs/commands/calculate_stats.py:77-82 | min ≤ median ≤ max and min ≤ mean ≤ max for every metric. |
| Stats.SingleValueSummary | fbs/commands/calculate_stats.py:77-82 | For a one-bill corpus, mean, median, min and max all equal its value. |
| Stats.ValuesOf | fbs/commands/calculate_stats.py:120-121 | The appended list is the metric's value in every bill, in order. It fails with a KeyError exactly when some bill lacks the metric. |
| Stats.AttachValues | fbs/commands/calculate_stats.py:117-121 | Every aggregate keeps its summary and gains the list of its column. It fails exactly when some aggregated metric is missing from a bill. |
| Stats.UpdateStats | fbs/commands/calculate_stats.py:96-121 | Over records whose metric fields are numbers, it fails only on an empty corpus. Otherwise every metric's values are `get_metrics` of each record in order, and its summary is the summary of those values. |
| Enrichment.Scored | fbs/render/bill.py:95-96 | The bill gains `ari_raw` and `ari_years_education`, computed from it. No other field changes. |
| Enrichment.DecileFields | fbs/render/bill.py:102-136 | Definition: the nine `get_decile_number` assignments in source order, stopping at the first KeyError. Its properties are in the three lemmas below. |
| Enrichment.DecileFieldsOk | fbs/render/bill.py:102-136 | Over a bill whose metric fields are numbers, the decile assignments succeed exactly when every metric is in both the bill and the statistics. |
| Enrichment.DecileFieldsFailure | fbs/render/bill.py:102-136 | A failure reports the first metric, in source order, that is missing from the bill or from the statistics. |
| Enrichment.DecileFieldsValues | fbs/render/bill.py:102-136 | On success there is exactly one `<metric>_decile` field per metric, holding the bucket of the bill's value. |
| Enrichment.DecileFieldsInRange | fbs/render/bill.py:102-136 | With nine cut points per metric, every decile field is in 1..10. |
| Enrichment.EnrichDeciles | fbs/render/bill.py:95-136 | Over a bill whose metric fields are numbers, it succeeds exactly when all nine metrics are in the scored bill and in the statistics. The nine fields are then the buckets of the scored values in the loaded deciles. |
| Enrichment.Normalised | fbs/render/bill.py:140 | The filter list holds the normalised bill-level entities, position by position. |
| Enrichment.FlattenMembers | fbs/render/bill.py:141-142 | An entity is among the section entities exactly when some section lists it. |
| Enrichment.CountStep | fbs/render/bill.py:143-144 | One `entity_count[entity] += 1`, applied only when the filter admits the entity, keeps the counter equal to the multiset of the admitted entities seen so far. |
| Enrichment.CountSection | fbs/render/bill.py:142-144 | After one section, the counter counts the entities seen before plus that section's entities. |
| Enrichment.CountEntities | fbs/render/bill.py:139-147 | An entity is counted, under its own spelling, exactly when it appears in a section and its normalised form is in the filter. Its count is the number of its occurrences across all sections. |
| Enrichment.RenderCommentaries | fbs/render/bill.py:156-175 | The commentary is rendered and every h1–h4 tag raised by one level. The money commentary gets the same treatment when present and stays None otherwise. |
| Enrichment.KeywordStringRoundTrip | fbs/render/bill.py:178 | Splitting the joined keyword string at ", " gives back the keywords, provided there is at least one and none contains ", ". |
| Enrichment.VersionDescription | fbs/render/bill.py:181-183 | Definition: `BILL_VERSION_CODES.get(version, "Unknown")`, i.e. `dict.get` with a default. |
| Enrichment.UrlsDetermineSlug | fbs/render/bill.py:192-193 | The PDF and JSON URLs begin with the slug, which can be read back from them. Different slugs never share a URL, and a PDF URL is never a JSON URL. |
| Enrichment.BillLinks | fbs/render/bill.py:178-193 | The link fields: both URLs begin with the slug, and the PDF URL differs from the JSON URL. The version description is the table's entry, or "Unknown" for a code the table lacks. The keyword string splits back into the keywords when there is at least one and none contains ", ". |
| Enrichment.KeywordsRecoverable | fbs/render/bill.py:178 | Under those two conditions, splitting the joined keyword string at ", " returns the keywords. |
| Enrichment.KeywordString | fbs/render/bill.py:178 | Definition: `", ".join(keywords)`; its round trip is `Enrichment.KeywordStringRoundTrip`. |
| Enrichment.PdfUrl | fbs/render/bill.py:192 | Definition: `f"{slug}.pdf"`; its properties are in `Enrichment.UrlsDetermineSlug`. |
| Enrichment.JsonUrl | fbs/render/bill.py:193 | Definition: `f"{slug}.json"`; its properties are in `Enrichment.UrlsDetermineSlug`. |
| Strings.Replace | fbs/render/bill.py:163-164 | Definition: `str.replace`, scanning left to right and replacing every non-overlapping occurrence. |
| Strings.Join | fbs/render/bill.py:178 | Definition: `sep.join(parts)`. |
| Strings.Split | fbs/render/bill.py:178 | Definition: `str.split(sep)`, the inverse against which the join's round trip is stated. |
| Headers.ShiftedOnce | fbs/render/bill.py:160-165 | The reference for the shift: one left-to-right sweep that raises every h1–h4 tag by one level and copies every other character. |
| Headers.ShiftHeaders | fbs/render/bill.py:160-165 | The four replace passes, for levels 4, 3, 2, 1, give exactly the one-sweep reference `ShiftedOnce`. |
| Headers.ShiftMatchesOnce | fbs/render/bill.py:160-165 | Composed over the levels, the passes raise each h1–h4 tag exactly once, with no cascade from one level into the next. Every other character is copied unchanged. |
| Headers.LevelsSplit | fbs/render/bill.py:160-165 | The passes act independently on the pieces of the text cut before a '<'. |
| Headers.OnceNoLt | fbs/render/bill.py:160-165 | Text without any tag comes through the shift unchanged. |
| Headers.NoLevelOneLeft | fbs/render/bill.py:160-165 | After the shift the HTML contains neither `<h1>` nor `</h1>`. |
| Headers.TagAt | fbs/render/bill.py:163-164 | A recognised tag has level 1..4, and its text is what the string starts with. |
| Site.Entry | fbs/commands/build_site.py:119-141 | A bill's summary entry exists exactly when it has a parseable date and the slug fields. Its date is the bill's date. |
| Site.EntryFields | fbs/commands/build_site.py:129-141 | The entry holds the bill's legis_num, title and date, and `get(key, 0)` for the three counts. It also holds the rendered `get("eli5", "")` and the slug of legis_num, title and bill_version. |
| Site.EntryDateFirst | fbs/commands/build_site.py:120 | A missing or unparseable date is the error raised first. |
| Site.YearMonth | fbs/commands/build_site.py:121 | Definition: `strftime("%Y-%m")` on a canonical date, i.e. its first seven characters. |
| Site.MonthName | fbs/commands/build_site.py:122 | Definition: `strftime("%B %Y")` in the C locale. |
| Site.DateExample | fbs/commands/build_site.py:120-122 | "2024-01-05" gives the key "2024-01" and the name "January 2024". |
| Site.MonthNameOfYearMonth | fbs/commands/build_site.py:121-127 | Dates with the same year-month key have the same month name, so a group's name fits all its bills. |
| Site.MonthNamesDistinct | fbs/commands/build_site.py:122 | No two month names of `%B` in the C locale are equal. |
| Site.YearMonthOfMonthName | fbs/commands/build_site.py:121-127 | The converse: dates with the same month name have the same year-month key, so keys and names determine each other. |
| Site.AddEntry | fbs/commands/build_site.py:124-142 | Definition: one bill's entry appended to its month's group, with a new group at the end when the month is new. |
| Site.Collect | fbs/commands/build_site.py:119-142 | Definition: the groups after the loop over all entries. Its properties are in `Site.CollectKeys` and `Site.CollectBills`. |
| Site.SortGroups | fbs/commands/build_site.py:144-146 | Every group keeps its key and name, and its bills are replaced by their reverse sort on the date. |
| Site.InsertEntry | fbs/commands/build_site.py:124-142 | The entry is appended to its month's group, which is created at the end if absent. |
| Site.SortEachGroup | fbs/commands/build_site.py:145-146 | It sorts every group's bills by date, newest first. |
| Site.SortGroupsSorted | fbs/commands/build_site.py:145-146 | After the sort every group's bills are a permutation of what they were, in non-increasing date order. |
| Site.GroupBillsByMonth | fbs/commands/build_site.py:107-148 | It succeeds exactly when every bill yields an entry, and otherwise reports the first bill's error. On success it is the sorted grouping of all entries. |
| Site.FirstSeen | fbs/commands/build_site.py:124-127 | The dictionary's key order: each month once, in order of first appearance. |
| Site.AddEntryShape | fbs/commands/build_site.py:124-142 | Adding a bill adds its month key at the end only if it is new, and grows the total by one. |
| Site.CollectKeys | fbs/commands/build_site.py:119-142 | The group keys are the bills' months in first-seen order, and the groups hold as many bills as there are bills. |
| Site.GroupKeys | fbs/commands/build_site.py:107-148 | The months of the final grouping are distinct, in first-seen order, and the groups hold every bill. |
| Site.GroupMembers | fbs/commands/build_site.py:124-142 | A group holds a bill exactly when the bill is in the input and of the group's month. Every bill is in some group. |
| Site.GroupOrder | fbs/commands/build_site.py:144-146 | In each group the bills are in non-increasing date order. They form a permutation of that month's input bills, and bills with the same date keep their input order. |
| Site.GroupNames | fbs/commands/build_site.py:122-127 | Every bill of a group has the group's month name. |
| Site.SortedSizes | fbs/commands/build_site.py:145-146 | Sorting inside the groups keeps the total number of bills. |
| Site.Lookup | fbs/commands/build_site.py:201 | `bill_groups[month]` for a present month: the group that carries that key. |
| Site.SortedMonthsAreKeys | fbs/commands/build_site.py:191 | The sorted month list holds exactly the group keys. |
| Site.GenerateMainIndex | fbs/commands/build_site.py:191-213 | The recent part pairs the first min(3, k) sorted months with their names and bills, and the archive lists the rest with name and count. The total is the number of recent bills. |
| Site.MonthSplit | fbs/commands/build_site.py:191-195 | Recent and archive together are the sorted months, a permutation of the keys, and no month is in both. Every recent month is at least every archive month. |
| Site.Halves | fbs/commands/build_site.py:194-195 | Slicing the distinct months at n gives two disjoint parts whose union is the list. |
| Site.HomeUrl | fbs/commands/build_site.py:77-82 | Definition: the home page element, with loc `https://usbills.ai/`, today's date, daily and priority 1.0. |
| Site.MonthUrl | fbs/commands/build_site.py:85-90 | Definition: a month page element `index-<YYYY-MM>.html`, with today's date, weekly and priority 0.9. |
| Site.BillUrl | fbs/commands/build_site.py:93-101 | A bill's url element exists exactly when legis_num, title, bill_version and date are present. It is then `<domain><slug>.html` with the bill's date and priority 0.8. |
| Site.Writable | fbs/commands/build_site.py:99-104 | Definition: ElementTree can write an element whose text is a string or falsy. A falsy text (null, false, 0, empty) is written as an empty element. |
| Site.NullDateWritten | fbs/commands/build_site.py:99-104 | A bill with a null date still gets a url element, written with an empty lastmod. A date of 1 cannot be written. |
| Site.GenerateSitemap | fbs/commands/build_site.py:75-104 | It fails exactly when some bill lacks a key (reporting the first) or has a date that is truthy but not text. Otherwise it lists the home page, one url per month in dictionary order, then one url per bill in order. |
| Site.MonthUrlsDistinct | fbs/commands/build_site.py:85-90 | Distinct months give distinct month-page locations, none of which is the home page. |
| Site.WithoutText | fbs/commands/build_site.py:276-278 | The three `pop(key, None)` calls remove exactly `text`, `html` and `markdown` and keep every other key's value. |
| Site.StripSections | fbs/commands/build_site.py:279-282 | A list of dictionaries loses their text fields, position by position. An empty dictionary or string is left as is. Other values fail, and for a list the error names the first section that is not a dictionary. |
| Site.StripItems | fbs/commands/build_site.py:279-282 | Definition: the sections stripped one by one, stopping at the first that is not a dictionary. See `Site.StripItemsResult`. |
| Site.StripItemsResult | fbs/commands/build_site.py:279-282 | A section list is stripped exactly when every item is a dictionary, each then losing only its text fields. Otherwise the first non-dictionary is reported. |
| Site.StripSectionList | fbs/commands/build_site.py:279-282 | The section loop computes `StripItems`. |
| Site.IndexRecord | fbs/commands/build_site.py:270-282 | A bill's index.json record exists exactly when the slug fields are present and its sections, if any, can be stripped. |
| Site.IndexRecordFields | fbs/commands/build_site.py:270-278 | The record gains `slug` and `json_url` and loses the three text fields. Every other key keeps its value. |
| Site.IndexRecordSections | fbs/commands/build_site.py:279-282 | Every section keeps its length and order, loses exactly the text fields and keeps its other values. A non-list `sections` value is unchanged. |
| Site.IndexRecordIdempotent | fbs/commands/build_site.py:267-282 | Stripping a stripped record again changes nothing. |
| Site.StripSectionsIdempotent | fbs/commands/build_site.py:279-282 | Stripping a stripped section list again changes nothing. |
| Site.StripRecord | fbs/commands/build_site.py:270-282 | The step-by-step updates of one bill compute `IndexRecord`. |
| Site.GenerateIndexJson | fbs/commands/build_site.py:267-282 | The output has one record per bill, in order, unless some bill fails; then the first failing bill's error is reported. |
| Site.RobotsTxt | fbs/commands/build_site.py:295-302 | The buffer is the three lines "User-Agent: *", "Sitemap: https://usbills.ai/sitemap.xml" and "Disallow:" joined by newlines. |
| Site.RobotsLinesAreLines | fbs/commands/build_site.py:296-302 | None of the three lines contains a newline. |
| Site.RobotsLinesRoundTrip | fbs/commands/build_site.py:295-302 | Read back line by line, robots.txt gives exactly the three lines. |
| Json.Len | fbs/commands/migrations/add_num_characters.py:17 | Python's `len` is defined exactly for strings, lists and dictionaries, and counts code points and elements. |
| Migration.Filled | fbs/commands/migrations/add_num_characters.py:16-17 | A dictionary with `num_characters` is unchanged. Otherwise it gains `len(text)` there and keeps every other key. A missing text is a KeyError and a text without a length is an error. |
| Migration.FilledSections | fbs/commands/migrations/add_num_characters.py:19-21 | Definition: the section loop on the value of `data["sections"]`. A list is filled item by item and an empty string or dictionary does nothing; anything else fails. |
| Migration.Backfill | fbs/commands/migrations/add_num_characters.py:13-21 | Definition: the record filled first, then its sections. Its properties are in the `Backfill…` lemmas below. |
| Migration.FilledItems | fbs/commands/migrations/add_num_characters.py:19-21 | A section list is filled exactly when every section is a dictionary that can be filled. It then keeps its length and order, each section filled. |
| Migration.FilledItemsPrefix | fbs/commands/migrations/add_num_characters.py:19-21 | A failing prefix of the sections is the failure of the whole loop. |
| Migration.AddNumCharacters | fbs/commands/migrations/add_num_characters.py:13-21 | The in-order updates of the record and its sections compute `Backfill`. |
| Migration.BackfillRecord | fbs/commands/migrations/add_num_characters.py:16-17 | The record gains `num_characters`: kept when present, else the length of its text. No other key apart from `sections` changes. |
| Migration.BackfillSections | fbs/commands/migrations/add_num_characters.py:19-21 | Every section, in order, gains `num_characters` in the same way and keeps its other keys. |
| Migration.BackfillOtherSections | fbs/commands/migrations/add_num_characters.py:19 | A `sections` value that is not a list comes through unchanged. |
| Migration.BackfillIdempotent | fbs/commands/migrations/add_num_characters.py:13-21 | Running the migration on its own output changes nothing. |
| Migration.FilledItemsFilled | fbs/commands/migrations/add_num_characters.py:19-21 | Filling filled sections again changes nothing. |
| Migration.BackfillNeedsText | fbs/commands/migrations/add_num_characters.py:16-17 | A record without `num_characters` and without `text` fails with a KeyError on `text`. |
| Migration.SectionNeedsText | fbs/commands/migrations/add_num_characters.py:20-21 | The first section that needs a count but has no text makes the migration fail with a KeyError on `text`. |

## Notes

- `get_decile_number` tests `value <= decile` (`fbs/render/bill.py:76`), so a value equal to a boundary falls in that boundary's bucket. For the deciles of 10, 20, …, 100, the value 46 is in bucket 4 (`Deciles.TenDecilesBoundary`).
- The comment at `fbs/render/bill.py:159` speaks of shifting the headers "down by two levels". The code raises each h1–h4 tag by exactly one level, and the model follows the code (`Headers.ShiftMatchesOnce`).

## Left out

- **File system:** reading and writing files, gzip, directory walks, JSON encoding and decoding, templates, and the LRU cache of `load_bill_stats`. The model works on the decoded values and on what the templates are given.
- **Parameters for foreign code:** `get_bill_slug`, `markdown.markdown`, `get_ari_raw`, `get_ari_years_education`, `str.lower().strip()` and the `BILL_VERSION_CODES` table are outside the repository, so they are parameters.
- **Clock:** `datetime.now()` is not modelled.
  - The sitemap's `today` is a parameter, taken once for all entries, whereas the source reads the clock per entry.
  - The `timestamp` fields (`fbs/render/bill.py:186`, `fbs/commands/build_site.py:218`) are not modelled.
- **Numbers** are exact reals. Floating-point rounding in `statistics.mean`, `statistics.median` and `quantiles`, and in the ARI formulas, is not modelled.
- **Other markdown rendering:** rendering of the section summaries, `eli5`, `summary` and `issues` (`fbs/render/bill.py:150-157`) is a pure foreign call and is not modelled. The header shift's input is the rendered text.
- **Logging and the CLI:** logging, the `main` functions, the privacy and about pages, and the per-month index pages (template rendering only) are not modelled.
- **Python error classes:** they are collapsed into one error datatype per module (missing key, bad date, not a dictionary, not iterable, cannot serialise, empty corpus). Only which input fails, and which failure comes first, is modelled.
- **Deciles.Quantiles:** for a single data point it follows Python 3.13, which returns nine copies of the point. Earlier versions raise StatisticsError there.
- **Site.Entry:** it accepts only zero-padded `YYYY-MM-DD` dates of the years 1000-9999 that exist in the Gregorian calendar.
  - `strptime` also accepts unpadded months and days and years below 1000. For those the rendered key differs from the first seven characters.
  - The model reports such a date as unparseable.
- **Site.GenerateIndexJson:** `bills.copy()` is a shallow copy, so the source also strips the caller's bill dictionaries in place. A bill that fails halfway stays partly updated. The model returns new records and does not capture that aliasing.
- **Migration.AddNumCharacters:** the source updates the record in place and leaves it partly updated when a later section raises. The model returns the result on values.
- **Migration.FilledItems:** a section that is not a dictionary is always an error here.
  - Python would skip a string section that contains the substring `num_characters`, or a list section whose elements include that string, because `in` succeeds on them.
- **Migration.FilledSections:** a non-empty dictionary used as `sections` is always an error here. Python iterates over its keys instead, and skips a key that contains the substring `num_characters`.
- **Site.GenerateMainIndex:** `recent_bills` is a dictionary keyed by month name; the model keeps it as an ordered list of (name, bills) pairs. The two agree because distinct year-month keys have distinct month names (`Site.YearMonthOfMonthName`, with `Site.MonthNameOfYearMonth` for the other direction).
- **Site.GenerateSitemap:** the month pages follow the group list order, which models the dictionary's insertion order. XML escaping of the element texts is not modelled.
- **Enrichment.CountEntities:** it takes the bill-level and section entity lists as typed values, so these errors are not modelled:
  - the KeyErrors on `entities` (`fbs/render/bill.py:140`), `sections` (line 141) and a section's `entities` (line 142);
  - the AttributeError of `.lower()` on an entity that is not a string.
- **Enrichment.CountEntities:** the Counter is a `map<string, nat>`, so the first-seen key order stored in `entity_counts` (`fbs/render/bill.py:147`) is not kept. Only the keys and counts are.
- **Enrichment.RenderCommentaries:** these errors are not modelled:
  - the KeyErrors on `commentary` (`fbs/render/bill.py:156`) and on `money_commentary` (line 168);
  - any error of `markdown.markdown` on a non-string.
  - The money commentary arrives as an Option.
- **Enrichment.BillLinks:** these errors are not modelled:
  - the KeyErrors on `keywords` (`fbs/render/bill.py:178`), `bill_version` (line 182), and `legis_num` or `title` (lines 190-191);
  - the TypeError of `", ".join` on a non-string keyword.
  - The keywords, version and slug arrive as typed values.
- **Enrichment.KeywordStringRoundTrip:** it needs at least one keyword and no ", " inside any keyword. The empty list joins to "", which splits to [""].
- **Stats.AttachValues:** `calculate_aggregate_stats` never sets `values`, so the list always starts empty (`fbs/commands/calculate_stats.py:118-119`).
- **Stats.UpdateStats:** the records are numeric maps (`MetricSet`). A decoded bill whose metric field is null, text, a list or a dictionary cannot be expressed.
  - `data.get(...)` (`fbs/commands/calculate_stats.py:36-51`) passes such a value through, and `statistics.mean`, `median`, `min` or `max` then raises TypeError (lines 78-81).
  - The model does not capture that failure, so its "fails only on an empty corpus" holds for numeric records only.
  - Python's booleans, which count as 0 and 1, are not distinguished from numbers either.
- **Stats.GetMetrics:** for the same reason, its input is a numeric view of the record.
- **Enrichment.EnrichDeciles:** the bill is a numeric view (`map<string, real>`). A metric field that is null, text, a list or a dictionary cannot be expressed, so the TypeError that `value <= decile` (`fbs/render/bill.py:76`) raises on it is not modelled.
- **Enrichment.DecileFieldsOk:** for the same reason, its "exactly when" covers only bills whose metric fields are numbers. The TypeError at `fbs/render/bill.py:76` is not one of its failures.
- **Stats.UpdateStats:** the file loop (`fbs/commands/calculate_stats.py:97-109`) and its re-raise on a bad file are not modelled. It starts from the decoded records.

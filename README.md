# Review sentiment pipeline — a Dafny model

The system analyses the customer reviews of one product (a SKU). A web form
validates the SKU and posts it to the backend, which registers a job and runs
the analysis in the background: it fetches the reviews, cleans their text
(a deterministic cleaner or a language-model graph that chooses cleaning steps
batch by batch), classifies each review's sentiment, extracts the aspects a
review talks about (product, price, delivery, …) and the keywords of each
sentiment, and builds the statistics the dashboard shows: sentiment counts and
percentages, monthly trends, per-aspect sentiment breakdowns with sample
reviews, and keyword lists. A separate script prepares a labelled training set
from a CSV export of reviews, and the dashboard ranks and colours what the
backend returns.

This project models, in Dafny:

- the job store and the analysis stages of the API routes, as a class whose
  methods change the job dictionary (`Routes.JobStore`), with the data each
  stage computes (`RoutesData`);
- the statistics builder (`StatsBuild`, `AspectAggregate`) over dictionaries
  kept in insertion order (`Assoc`);
- aspect extraction with its batching, answer parsing and fallbacks
  (`Batching`, `AspectExtract`), the cleaning graph (`CleanTextGraph`) and the
  chat-completion helper (`OpenAiClient`);
- keyword extraction and the keyword-to-review matching
  (`KeywordExtract`, `KeywordMatch`);
- the data-preparation script (`PrepareData`);
- the dashboard's derived values (`ResultsDashboard`) and the SKU forms
  (`SkuInput`);
- shared Python/JavaScript string and JSON semantics (`Text`, `Py`,
  `Sentiments`, `Reviews`, `Wrappers`).

The language model, the sentiment classifier, the keyword model, the clock,
the uuid generator and random sampling are parameters of the model: each
operation is proved correct for every answer they could give.

## Where the code is surprising

A few behaviours of the code are easy to miss when reading it, and the model
keeps them:

- there is no `failed` status: an exception in the analysis is never recorded
  on the job, which is not marked complete and keeps its old result
  (`Routes.JobStore.RunAnalysis`);
- aspect names are only lower-cased when aggregated, not trimmed
  (`AspectAggregate.Record`);
- a keyword matches a review when it occurs in the lower-cased text as a
  substring, not when it is one of the review's words
  (`KeywordMatch.MatchesSpec`);
- the cleaning graph has no per-batch recovery: a step selection that fails
  fails the whole cleaning stage (`CleanTextGraph.CleanFromSucceeds`);
- aspect extraction does not always return one result per review: a batch
  answer of the wrong length is spliced in as it is, so the result list grows
  or shrinks by the difference (`Batching.OversizedBatchResizes`), and a later
  batch is still written to `[start:start+len(batch)]`, so a short last batch
  can leave a trailing slot untouched (`Batching.ShortLastBatchAfterResize`);
- `drop_duplicates` keeps the first row of each text, so a repeated review
  text is analysed with the rating and date of its first row
  (`RoutesData.PartitionKeepsFirstRows`), and the preparation script keeps
  the first row's rating for a repeated (text, label) pair
  (`PrepareData.PrepareKeepsFirstRows`);
- a date that `datetime.fromisoformat` rejects, such as a valid date followed
  by an impossible time, silently drops that review from the monthly trends
  (`StatsBuild.IsoBadTimeRejected`);
- the control step of the cleaning graph removes no control character: its
  raw pattern `\\p{C}+` escapes the backslash, so it only replaces the
  literal text `\p{C` followed by closing braces with a space
  (`CleanTextGraph.ControlCharacterKept`, `CleanTextGraph.LiteralPatternReplaced`);
  the classic cleaner, `backend/core/clean_text.py:35`, writes the class with one backslash;
- `whitespace_step` collapses runs of the `regex` package's `\s`, the Unicode
  White_Space characters, which leave out U+001C..U+001F; `str.strip()` does
  remove them, so such a character survives inside a text but not at its ends
  (`CleanTextGraph.InfoSeparatorKeptInside`,
  `CleanTextGraph.InfoSeparatorStrippedAtEnds`).

## Model

| member | source | states |
|---|---|---|
| Assoc.Get | backend/core/stats_build.py:15-16 | `d.get(k)` finds a value exactly when `k` is a key |
| Assoc.Put | backend/core/stats_build.py:122-123 | after `d[k] = v`, `k` maps to `v` and every other key keeps its value |
| Assoc.PutKeys | backend/core/stats_build.py:122-128 | an existing key keeps its place in iteration order and a new key goes last |
| Assoc.TallyCounts | backend/core/stats_build.py:17-23 | a Counter holds every element of its input with its exact multiplicity, and nothing else |
| Assoc.TallyTotal | backend/core/stats_build.py:17-18 | the counts of a Counter add up to the length of its input |
| Assoc.TallyDistinct | backend/core/stats_build.py:17 | a Counter has distinct keys |
| Assoc.Percentages | backend/core/stats_build.py:19 | the percentages have exactly the keys of the counts |
| Assoc.PercentagesGet | backend/core/stats_build.py:19 | each key's percentage is 100 times its count over the total |
| Assoc.PercentagesSumTo100 | backend/core/stats_build.py:18-19 | the percentages of a non-empty Counter of its own total add up to 100 |
| Assoc.SortDescSpec | backend/core/stats_build.py:138 | `sort(key=..., reverse=True)` is ordered by key, most first, a permutation of its input, and stable |
| Assoc.PySliceTo | backend/core/stats_build.py:139 | `xs[:n]` is a prefix: `min(n, len)` elements for non-negative n, and the list without its last -n elements for negative n |
| Assoc.TakeSortedIsTop | backend/core/stats_build.py:138-139 | an element left out of the first n of the sort means n were kept, each with a key at least as large |
| Assoc.MostCommonSpec | backend/core/stats_build.py:88 | `most_common(n)` has at most n entries, each an element with its exact count, no element twice, counts non-increasing, and an element left out means n were kept, each at least as frequent |
| Assoc.MostCommonKeysSpec | backend/core/stats_build.py:88 | the elements of `most_common(n)` are a top n of the input by frequency |
| Assoc.Positions | backend/api/routes.py:113 | the positions of the set flags, each once, in increasing order |
| Assoc.SelectAtPositions | backend/api/routes.py:113-114 | the j-th selected element is the element at the j-th set position |
| Assoc.SelectTally | backend/core/stats_build.py:22-23 | counting the selected elements: the counts add up to the number selected, every selected element is a key, and every key was selected |
| Assoc.DistinctBySpec | backend/api/routes.py:72 | de-duplication by key keeps one element per key, each an input element that is the first of its key, and misses no key of the input |
| Assoc.DistinctByKeys | backend/api/routes.py:72 | no key twice, every element drawn from the input, and every key of the input present |
| Assoc.DistinctByFirstOfKey | backend/api/routes.py:72 | each kept element is an input element that no earlier input element shares its key with |
| Assoc.DistinctByKeepsFirsts | backend/api/routes.py:72 | `keep="first"`: the result is the subsequence of first-of-key elements, so its j-th element sits at the j-th first-of-key position and the positions increase |
| Assoc.DistinctByFirstInputs | backend/api/routes.py:70-72 | after filtering, each kept element comes from the earliest input that yields its key |
| Assoc.FirstInputOf | backend/api/routes.py:70-72 | the input behind the first filtered element of a key yields that element, and no earlier input yields the key |
| Assoc.DistinctByInputOrder | backend/api/routes.py:70-72 | after filtering and de-duplication, kept elements appear in the order of the inputs they come from |
| Text.StripBy | backend/api/routes.py:71 | the stripped text neither starts nor ends with a stripped character, and is empty exactly when every character is one |
| Text.BlankIffAllSpace | backend/core/keyword_extract.py:17 | `not s.strip()` exactly when every character is whitespace |
| Text.Lower | backend/api/routes.py:204 | lower-casing keeps the length and lowers each character |
| Text.RemovePunct | backend/api/routes.py:204 | removing punctuation leaves no punctuation character and never lengthens the text |
| Text.SplitJoin | backend/core/clean_text_graph.py:43-46 | splitting words joined by single spaces gives the words back |
| Text.JoinContainsEach | backend/core/keyword_extract.py:23 | every joined string occurs unchanged in the joined text |
| Text.IntToString | backend/core/stats_build.py:16-22 | `str(n)` is non-empty, all digits after an optional leading minus sign, and starts with a digit exactly for n >= 0 |
| Sentiments.LabelName | backend/core/stats_build.py:15-16 | `label_map.get(str(l), str(l))`: 0/"0" is negative, 1/"1" neutral, 2/"2" positive, None is "None", and a sentiment name stays itself |
| Sentiments.LabelSentiment | backend/core/keyword_extract.py:14-15 | a label counts for a sentiment exactly when its name is one of the three |
| Sentiments.NormalizeLabel | backend/api/routes.py:193-200 | an int label becomes its sentiment name (0, 1, 2) or its decimal string, and any other label stays as it is |
| Sentiments.NormalizeKeepsLabelName | backend/api/routes.py:193-200 | rewriting a label does not change the name the statistics count it under |
| Reviews.RatingStr | backend/core/stats_build.py:22 | `str(rating)` of an integer rating is its decimal form |
| StatsBuild.SentimentStrs | backend/core/stats_build.py:14-16 | one name per review, in review order, each the `label_map` name of that review's label (`"None"` for a missing one) |
| StatsBuild.SentimentCountsSpec | backend/core/stats_build.py:16-18 | the counts have distinct keys; a name has a count exactly when some review is counted under it, and that count is the number of such reviews; the counts sum to the number of reviews |
| StatsBuild.SentimentPercentages | backend/core/stats_build.py:19 | the percentages have exactly the keys of the counts |
| StatsBuild.SentimentPercentagesSpec | backend/core/stats_build.py:17-19 | each name's percentage is 100 times its count over the number of reviews, a name no review carries has none, and for non-empty input the percentages sum to 100 |
| StatsBuild.Rated | backend/core/stats_build.py:22 | marks exactly the reviews whose rating is not None |
| StatsBuild.RatingTexts | backend/core/stats_build.py:22 | one entry per review; a rated review's entry is `str(rating)` |
| StatsBuild.StarDistributionSpec | backend/core/stats_build.py:22-23 | the histogram's counts sum to the number of rated reviews, every rated review's `str(rating)` is a key, and every key is the rating string of some rated review |
| StatsBuild.PoolSpec | backend/core/stats_build.py:28 | a sentiment's pool lists, in review order, the non-empty clean text of each review whose label names that sentiment, and only those |
| StatsBuild.Sample | backend/core/stats_build.py:29-32 | an empty pool gives `[]`; otherwise `min(n_samples, len(pool))` picks at distinct positions of the pool, and a negative count raises ValueError |
| StatsBuild.SampleReviews | backend/core/stats_build.py:26-32 | fails exactly when the count is negative and some pool is non-empty; otherwise each of the three keys holds that sentiment's sample |
| StatsBuild.IsoYearMonth | backend/core/stats_build.py:72-73 | a parsed text starts with a date `YYYY-MM-DD` whose year and month are read, with the month in 1..12, and is that date alone or followed by a separator and a time whose hour is at most 23; a text is unparsable only when it has no valid date or what follows the date is not a valid time |
| StatsBuild.DateTimeRead | backend/core/stats_build.py:72-73 | any valid date, followed by any separator and a valid time, reads as the date's year and month |
| StatsBuild.IsoDateOfPrefix | backend/core/stats_build.py:72-73 | whether a text starts with a valid date depends on its first ten characters only |
| StatsBuild.IsoDateRead | backend/core/stats_build.py:72-73 | `2024-01-15` reads as January 2024 |
| StatsBuild.IsoDateTimeRead | backend/core/stats_build.py:72-73 | a leap day with a time, a fraction of a second and a `+05:30` offset reads as February 2024 |
| StatsBuild.IsoBadTimeRejected | backend/core/stats_build.py:72-79 | a date followed by the impossible time `99:99` is unparsable, so the review is skipped |
| StatsBuild.IsoTrailingTextRejected | backend/core/stats_build.py:72-79 | a date followed by text that is not a time is unparsable |
| StatsBuild.IsoImpossibleDateRejected | backend/core/stats_build.py:72-79 | the 29th of February of a common year is unparsable |
| StatsBuild.IsoFractionAfterHourRead | backend/core/stats_build.py:72-73 | `2024-01-15T10.123`, a fraction straight after the hour, reads as January 2024 |
| StatsBuild.IsoFractionAfterMinuteRead | backend/core/stats_build.py:72-73 | `2024-01-15T10:30.123`, a fraction straight after the minute, reads as January 2024 |
| StatsBuild.ClockThenOffset | backend/core/stats_build.py:72-73 | a clock followed by a non-empty offset is a valid time |
| StatsBuild.TimeTrends | backend/core/stats_build.py:66-80 | the loop builds the month buckets of the reviews' (month, name) events in review order, skipping reviews without a date or with a date `IsoYearMonth` cannot read |
| StatsBuild.EventsUpTo | backend/core/stats_build.py:67-79 | at most one event per review |
| StatsBuild.TrendsCount | backend/core/stats_build.py:76-77 | a month's count for a name is the number of events with that month and name |
| StatsBuild.TrendsTotal | backend/core/stats_build.py:66-80 | the bucket counts of all months sum to the number of events, hence never exceed the number of reviews |
| StatsBuild.NumberPrints | backend/core/stats_build.py:76 | a digit string without a leading zero is what `str` prints for its value |
| StatsBuild.MonthKeyIsPrefix | backend/core/stats_build.py:73-76 | for a date from year 1000 on, the month key is the text's own `YYYY-MM` prefix |
| StatsBuild.Tokens | backend/core/stats_build.py:86 | every token is a non-empty run of word characters |
| StatsBuild.Pairs | backend/core/stats_build.py:87 | a text with n tokens gives max(0, n-1) bigrams |
| StatsBuild.BigramSplits | backend/core/stats_build.py:86-87 | bigram i of a text splits back into tokens i and i+1 of that same text |
| StatsBuild.TopBigrams | backend/core/stats_build.py:88 | at most ten bigrams |
| StatsBuild.TopBigramsSpec | backend/core/stats_build.py:83-92 | the top bigrams are distinct bigrams of the texts in non-increasing frequency, and a bigram left out means ten were kept, each at least as frequent |
| StatsBuild.BuildStatsSummary | backend/core/stats_build.py:9-105 | raises exactly when sampling raises; otherwise returns `SummaryOf` its inputs: the counts, percentages, histogram, samples, trends and bigrams defined above, with the keywords and keyword samples passed through |
| AspectAggregate.Iterate | backend/core/stats_build.py:119 | `for asp in v` visits a list's items; an empty string or dict visits nothing, and other values raise |
| AspectAggregate.TextField | backend/core/stats_build.py:120-121 | a missing key raises KeyError on that key; a success is the lower-cased string stored under the key |
| AspectAggregate.Record | backend/core/stats_build.py:122-126 | a sentiment other than the three raises KeyError on its name; any other failure is an IndexError for a review index past the cleaned reviews |
| AspectAggregate.MentionedConsistent | backend/core/stats_build.py:122-126 | one mention raises `total` by one and keeps `total` equal to the sum of the three counts, with each sample list capped by its count and by `samples_per_aspect` and drawn from the reviews' clean values |
| AspectAggregate.RecordPreserves | backend/core/stats_build.py:120-126 | a recorded mention keeps the aspect table consistent and makes the aspect a key |
| AspectAggregate.RecordCounts | backend/core/stats_build.py:122-123 | a recorded mention adds exactly one to the mentions summed over all aspects |
| AspectAggregate.ItemsCounts | backend/core/stats_build.py:119-126 | a result's mentions, processed without an exception, add their number to the summed mentions |
| AspectAggregate.ResultPreserves | backend/core/stats_build.py:116-126 | a non-dict result changes nothing; a dict result keeps the table consistent and adds its mentions |
| AspectAggregate.TableInvariant | backend/core/stats_build.py:114-126 | without an exception, the table is consistent and the mentions of all aspects sum to the mentions in the dict results |
| AspectAggregate.TableFailsFrom | backend/core/stats_build.py:116-126 | once a result raises, the whole call ends in that same exception |
| AspectAggregate.ProcessItems | backend/core/stats_build.py:119-126 | the inner loop computes the step-by-step fold of the mentions, stopping at the first exception |
| AspectAggregate.Records | backend/core/stats_build.py:128-137 | one record per aspect, in first-seen order, built from that aspect's counts |
| AspectAggregate.PctSum | backend/core/stats_build.py:129-134 | the three shares of a mentioned aspect add up to 100 |
| AspectAggregate.RecordsShares | backend/core/stats_build.py:128-137 | every reported aspect was mentioned at least once, its shares add up to 100, and its record is the one for that table entry |
| AspectAggregate.SummarySpec | backend/core/stats_build.py:138-139 | the report is sorted by mentions, most first, and holds only table records; an aspect left out of a non-negative `top_n` report means `top_n` were kept, each mentioned at least as often |
| AspectAggregate.AggregateAspectSentiment | backend/core/stats_build.py:107-139 | the first exception ends the call with that exception; otherwise the result is the sorted, truncated report of the whole table |
| AspectAggregate.UnknownSentimentRaises | backend/core/stats_build.py:121-125 | a mention with sentiment "Mixed" raises KeyError("mixed") |
| AspectAggregate.OneMentionTable | backend/core/stats_build.py:116-126 | a single ("Taste", "Positive") mention gives the aspect "taste" with one positive count and the review's text as its sample |
| AspectAggregate.OneAspectReport | backend/core/stats_build.py:128-139 | that table reports "taste" as 100% positive with one mention |
| Batching.Batch | backend/core/aspect_extract.py:116-117 | the batch starting at `i` holds `min(batch_size, n - i)` items, so only the last one may be short |
| Batching.SliceAssign | backend/core/aspect_extract.py:107 | for in-range bounds, slice assignment keeps the part before, inserts the new list and keeps the part after |
| Batching.SliceAssignSameSize | backend/core/aspect_extract.py:107 | a slice replaced by a list of its own length keeps the list's length, holds the new list there and changes no other slot |
| Batching.SliceAssignResizes | backend/core/aspect_extract.py:107 | a slice replaced by a list of another length changes the length by the difference and shifts every later slot by it |
| Batching.RunBatchesWellSized | backend/core/aspect_extract.py:115-121 | when every batch answers with one result per input, the write-backs keep the slots before the first batch and fill the rest with the batch outputs in order |
| Batching.WriteBackBatches | backend/core/aspect_extract.py:107-121 | the write-back loop writes each batch output to `[start:start+len(batch)]` for the starts `0, size, 2*size, ...` in order, ending with the result of that run |
| Batching.ByLengthWellSized | backend/core/aspect_extract.py:107-121 | while every batch answers with one result per input, writing to `[start:start+len(batch)]` and to `[start:start+size]` give the same list: the prefix kept and the batch outputs in order |
| Batching.ByLengthMatches | backend/core/aspect_extract.py:107-121 | with well-sized answers the two write-back bounds give the same list |
| Batching.BatchedWriteBack | backend/core/aspect_extract.py:107-122 | a pre-filled list of n slots ends with n slots holding the batch outputs in input order when every batch is well sized |
| Batching.BatchOutputsAt | backend/core/aspect_extract.py:116-119 | slot k of the concatenated outputs is the output for input k of the batch that holds it |
| Batching.BatchedSlot | backend/core/aspect_extract.py:107-119 | slot k of the written-back list is the output for input k of the batch that holds it, at k's position in that batch |
| Batching.OversizedBatchResizes | backend/core/aspect_extract.py:107 | four inputs in batches of two where the first answer has three results: the list grows to five slots and the last slot keeps its initial value |
| Batching.ShortLastBatchAfterResize | backend/core/aspect_extract.py:107-119 | after an oversized first answer, the short last batch of three inputs in batches of two is written to `[2:3]` and keeps the trailing slot, while a write to `[2:4]` would have dropped it |
| Batching.MapIndexed | backend/core/clean_text_graph.py:90-94 | one result per element, in order |
| Batching.MapIndexedAt | backend/core/clean_text_graph.py:90-94 | result j is the function applied to j and element j |
| AspectExtract.Sentinels | backend/core/aspect_extract.py:109-113 | `[{}] * n`: n empty objects |
| AspectExtract.Nones | backend/core/aspect_extract.py:79 | `[None] * n`: n empty slots |
| AspectExtract.BatchWrite | backend/core/aspect_extract.py:99-113 | a failed request or parse, or an answer that is not a list, writes one `{}` per review of the batch; a list answer is written as it is, whatever its length |
| AspectExtract.FallbackKeepsBatchSize | backend/core/aspect_extract.py:106-113 | every fallback writes exactly one `{}` per review of the batch |
| AspectExtract.WrappedReplyUnwrapped | backend/core/aspect_extract.py:101-102 | an answer beginning `{"reviews":` contributes its `reviews` list |
| AspectExtract.BatchLlmExtractAspects | backend/core/aspect_extract.py:13-122 | a missing API key raises RuntimeError before any batch; a zero batch size raises ValueError; a negative one leaves the None slots; otherwise each batch's answer, or its `{}` fallback, is written to `[start:start+len(batch)]` in batch order |
| AspectExtract.EmptyInputNoBatches | backend/core/aspect_extract.py:79-122 | no reviews give `[]` and no model call |
| AspectExtract.AlignedWhenWellSized | backend/core/aspect_extract.py:107-122 | when every batch answers with one result per review, the result has one slot per review, in review order |
| CleanTextGraph.Collapse | backend/core/clean_text_graph.py:31 | `re.sub(r"\s+", " ", s)`, with the `regex` package's `\s`, is empty exactly when its input is |
| CleanTextGraph.CollapseShape | backend/core/clean_text_graph.py:31 | after collapsing, every `\s` character is a space and no two are adjacent, and the text starts with a `\s` character exactly when the input does |
| CleanTextGraph.StripSingleSpaced | backend/core/clean_text_graph.py:31 | stripping a single-spaced text keeps it single-spaced |
| CleanTextGraph.WhitespaceStepShape | backend/core/clean_text_graph.py:30-31 | `whitespace_step`'s output has no `str.isspace()` character at either end, no two consecutive `\s` characters, and every `\s` character in it is a plain space |
| CleanTextGraph.CollapseFixpoint | backend/core/clean_text_graph.py:31 | collapsing a single-spaced text changes nothing |
| CleanTextGraph.StripFixpoint | backend/core/clean_text_graph.py:31 | stripping a text that neither starts nor ends with whitespace changes nothing |
| CleanTextGraph.WhitespaceStepIdempotent | backend/core/clean_text_graph.py:30-31 | `whitespace_step` applied twice is the same as once |
| CleanTextGraph.InfoSeparatorKeptInside | backend/core/clean_text_graph.py:1-31 | U+001C between two letters is not `\s` for the `regex` package, so `whitespace_step` keeps it |
| CleanTextGraph.InfoSeparatorStrippedAtEnds | backend/core/clean_text_graph.py:31 | a leading U+001C is removed by the final `strip()` |
| CleanTextGraph.ControlStep | backend/core/clean_text_graph.py:27-28 | `control_step` never lengthens a text: each match of the literal pattern `\p{C` plus closing braces becomes one space |
| CleanTextGraph.ControlStepWithoutBackslash | backend/core/clean_text_graph.py:27-28 | a text without a backslash, control characters included, passes through `control_step` unchanged |
| CleanTextGraph.ControlCharacterKept | backend/core/clean_text_graph.py:27-28 | a bell character between two letters is kept |
| CleanTextGraph.LiteralPatternReplaced | backend/core/clean_text_graph.py:27-28 | the literal text `\p{C}}` between two letters, with both its closing braces, becomes one space |
| CleanTextGraph.SpellWords | backend/core/clean_text_graph.py:44-45 | one word per input word: a known word, or one without a correction, stays; any other becomes its correction |
| CleanTextGraph.SpellStepKeepsWords | backend/core/clean_text_graph.py:42-46 | `spell_step` keeps the word count, keeps each word that is known or has no correction (None), and replaces the others by their correction |
| CleanTextGraph.OptionalSteps | backend/core/clean_text_graph.py:77-87 | keeps only the listed values that name one of the five optional steps, in order |
| CleanTextGraph.OnlyOptionalStepsApply | backend/core/clean_text_graph.py:77-87 | running the listed steps is the same as running only those naming html/encoding/emoji/control/whitespace; other names are ignored |
| CleanTextGraph.ApplyStepsSnoc | backend/core/clean_text_graph.py:77-87 | a step listed after the others runs on their result, so steps run in the listed order |
| CleanTextGraph.WhitespaceNamed | backend/core/clean_text_graph.py:86-87 | the value "whitespace" runs `whitespace_step` |
| CleanTextGraph.RepeatedWhitespaceStep | backend/core/clean_text_graph.py:77-87 | a step listed twice runs twice; for "whitespace" the second run changes nothing |
| CleanTextGraph.CleanText | backend/core/clean_text_graph.py:74-90 | a review's record always has a cleaned text, `lang` "en", and the hash of the original, uncleaned text |
| CleanTextGraph.CleanOne | backend/core/clean_text_graph.py:73-90 | the per-review loop body produces the record `CleanText` defines: optional steps in order, then spelling, then lemmatisation |
| CleanTextGraph.CleanBatch | backend/core/clean_text_graph.py:72-90 | one record per review of the batch |
| CleanTextGraph.LoopRecordsAreBatch | backend/core/clean_text_graph.py:72-90 | the records the loop appends one review at a time are the batch's records |
| CleanTextGraph.CleanBatchAt | backend/core/clean_text_graph.py:73-90 | record j of a batch is review j cleaned with step list j, or with no optional steps when the answer has fewer lists |
| CleanTextGraph.ProcessBatch | backend/core/clean_text_graph.py:72-90 | the per-batch loop returns the batch's records in review order |
| CleanTextGraph.CleanReviewsLanggraph | backend/core/clean_text_graph.py:57-96 | a zero batch size raises ValueError, a negative one returns the None slots, and otherwise the batches run in order from the None-filled list |
| CleanTextGraph.CleanFromSucceeds | backend/core/clean_text_graph.py:71-95 | the run fails exactly when some batch's step-selection call fails: no per-batch recovery |
| CleanTextGraph.SelectedWorkerWellSized | backend/core/clean_text_graph.py:72-92 | every batch writes back exactly one record per review, whatever the number of step lists returned |
| CleanTextGraph.CleanFromIsRunBatches | backend/core/clean_text_graph.py:68-95 | when every selection call succeeds, the cleaner is the generic batch write-back with the per-batch loop as worker |
| CleanTextGraph.CleanedSlot | backend/core/clean_text_graph.py:65-92 | slot k of a successful run is the record its batch produced for review k |
| CleanTextGraph.SlotRecord | backend/core/clean_text_graph.py:70-90 | the batch holding review k produces, at k's position, review k cleaned with the step list at that position |
| CleanTextGraph.CleanedAligned | backend/core/clean_text_graph.py:65-95 | the cleaner fails exactly when some selection call fails; otherwise it returns one record per review and slot k is review k cleaned with its own step list (none past the end of its batch's answer) |
| OpenAiClient.EmbeddableTexts | backend/core/openai_client.py:26 | keeps, in order, exactly the inputs that are strings and not blank after strip |
| OpenAiClient.EmbedTexts | backend/core/openai_client.py:19-42 | the loop raises ValueError when nothing is left to embed (before the key is read), then sends contiguous batches of at most 2048 texts in order and concatenates their vectors; the first failed request ends the call |
| OpenAiClient.EmbedBatchesLength | backend/core/openai_client.py:34-41 | with an endpoint that answers each text with one vector, the batches from `i` on return one vector per remaining text |
| OpenAiClient.EmbedTextsOnePerText | backend/core/openai_client.py:26-42 | nothing to embed raises ValueError whatever the key; otherwise, with a key and such an endpoint, one vector per non-blank string input |
| OpenAiClient.ArgMax | backend/core/openai_client.py:56 | `np.argmax`: a position holding the largest value, and the first such position |
| OpenAiClient.ProbabilityDictGet | backend/core/openai_client.py:61 | a class's probability is found under `str(class)` when no later class prints the same |
| OpenAiClient.ClassifyEmbeddings | backend/core/openai_client.py:46-63 | one record per embedding, in order, each the record of that embedding |
| OpenAiClient.ClassifyOneSpec | backend/core/openai_client.py:55-61 | a record's label is the class with the highest probability, the first one on a tie, and with distinct class names every class's probability is keyed by `str(class)` |
| OpenAiClient.StepLists | backend/core/openai_client.py:121-122 | an answer is accepted exactly when it parses to a list whose every element is a list, and then it is that list |
| OpenAiClient.GetCleaningStepsBatch | backend/core/openai_client.py:71-126 | a missing key raises RuntimeError and a failed call propagates; otherwise the parsed list of lists is returned whatever its length, or else the six default steps once per review |
| KeywordExtract.Marks | backend/core/keyword_extract.py:13-17 | marks exactly the reviews whose label maps to the sentiment and whose clean text is not blank |
| KeywordExtract.Texts | backend/core/keyword_extract.py:16 | each review's clean text, or "" when it is missing |
| KeywordExtract.GroupStep | backend/core/keyword_extract.py:12-18 | review i adds its text to a group exactly when its label maps to that sentiment and its text is not blank |
| KeywordExtract.JoinsByName | backend/core/keyword_extract.py:14-17 | a review joins a group exactly when its label's name is that sentiment's name and its text is not blank |
| KeywordExtract.JoinsAtMostOne | backend/core/keyword_extract.py:14-18 | a review joins at most one of the three groups |
| KeywordExtract.GroupUpToIsSelect | backend/core/keyword_extract.py:12-18 | the group built from the first n reviews is the texts of the marked reviews among them, in order |
| KeywordExtract.GroupIsJoiningTexts | backend/core/keyword_extract.py:12-18 | a group holds exactly the texts of the reviews that join it, in review order: its j-th text is that of the j-th joining review |
| KeywordExtract.GroupsUpToWithin | backend/core/keyword_extract.py:12-18 | the groups built from the first n reviews hold at most n texts together |
| KeywordExtract.GroupsWithinReviews | backend/core/keyword_extract.py:12-18 | the three groups hold at most one text per review |
| KeywordExtract.GroupTexts | backend/core/keyword_extract.py:10-18 | the grouping loop builds, for each of the three sentiments, exactly that sentiment's group |
| KeywordExtract.GroupTextsStep | backend/core/keyword_extract.py:13-18 | one round of the loop extends the groups by review i and by nothing else |
| KeywordExtract.Phrases | backend/core/keyword_extract.py:25 | keeps the phrase of each (phrase, score) pair, in order |
| KeywordExtract.Requests | backend/core/keyword_extract.py:21-27 | at most one document per group |
| KeywordExtract.NoRequestsIffAllEmpty | backend/core/keyword_extract.py:22-27 | the model is never called exactly when every group is empty |
| KeywordExtract.RequestsStep | backend/core/keyword_extract.py:21-27 | each group adds one document, its texts joined by ". ", when it is not empty, and none otherwise |
| KeywordExtract.KeywordsForGroups | backend/core/keyword_extract.py:21-27 | the keyword loop gives each group its keywords (`[]` for an empty one) and calls the model once per non-empty group, in group order |
| KeywordExtract.ExtractTopKeywordsBySentiment | backend/core/keyword_extract.py:4-28 | the result has exactly the three sentiment keys, each holding the keywords of that sentiment's group, and the documents sent are those of the non-empty groups in dict order |
| KeywordExtract.GroupTextsReachModel | backend/core/keyword_extract.py:23 | every grouped text appears unchanged inside its group's joined document |
| Routes.SubSteps | backend/api/routes.py:51-57 | `cleantext_substeps` has exactly the five sub-step keys html, encoding, emoji, control and whitespace, all in the same state |
| Routes.JobStore.AnalyzeSku | backend/api/routes.py:39-44 | inserts, under the fresh id it returns, a job with status pending, step 0, no result and no reviews; no other job changes |
| Routes.FetchStage | backend/api/routes.py:49-63 | status processing, step 0, all sub-steps pending; the reviews held are the producer's first 15000, in producer order |
| RoutesData.FetchCapped | backend/api/routes.py:58-62 | the fetch loop keeps the first `min(15000, n)` reviews the producer yields, in order |
| RoutesData.TextFlags | backend/api/routes.py:70-71 | marks exactly the rows whose text is present and not blank after strip |
| RoutesData.RatingOnlyFlags | backend/api/routes.py:75 | marks exactly the rows with missing or blank text and a rating |
| RoutesData.Partition | backend/api/routes.py:67-76 | no rows raise KeyError("customer_review") (the empty DataFrame has no such column); any rows split successfully |
| RoutesData.PartitionSpec | backend/api/routes.py:70-76 | text reviews are rows with usable text, one per distinct text, every usable text represented, each the first row of its text, in fetch order; rating-only reviews are exactly the rows without usable text but with a rating; a row with neither is in neither list |
| RoutesData.PartitionKeepsFirstRows | backend/api/routes.py:69-72 | each text review is a fetched row with usable text that no earlier row with usable text shares its text with |
| RoutesData.PartitionKeepsOrder | backend/api/routes.py:69-72 | two text reviews appear in the order of the rows they come from |
| RoutesData.PartitionMembers | backend/api/routes.py:70-76 | membership in the two lists and one text review per text |
| RoutesData.CleanClassic | backend/api/routes.py:93-98 | the classic pipeline gives one cleaned review per text review, in order, each the review merged with its cleaner output |
| RoutesData.ZipCleaned | backend/api/routes.py:88-91 | the graph output is zipped onto the text reviews: the result has the shorter length, an unfilled (None) slot within it raises TypeError, and otherwise entry j is text review j merged with output j |
| Routes.CleanStage | backend/api/routes.py:81-105 | step 1; the cleaned reviews are `CleanedOf` the text reviews: the classic cleaner on each in order, or the graph output zipped on; a graph failure propagates with the sub-steps left in progress; on success every sub-step is done and the cleaned reviews are stored |
| RoutesData.ValidFlags | backend/api/routes.py:111-113 | marks exactly the cleaned reviews whose clean text (or "") is not blank |
| RoutesData.ValidTexts | backend/api/routes.py:113-114 | the k-th valid text is the clean text at the k-th valid index, and it is not blank |
| RoutesData.ValidIndexIff | backend/api/routes.py:111-113 | an index is valid exactly when that review's clean text is not blank after strip |
| RoutesData.ScatterBack | backend/api/routes.py:121-136 | the full list has one slot per cleaned review; the k-th result lands at the k-th valid index and every other slot stays None |
| RoutesData.MergeScores | backend/api/routes.py:141-144 | every cleaned review gets its slot's embedding, and its slot's label and probabilities or None for an empty slot |
| Routes.Embed | backend/api/routes.py:113-119 | `embed_texts` runs on the valid texts, and is skipped when there are none |
| Routes.ClassifyAndMerge | backend/api/routes.py:127-144 | one review per cleaned review; the review at the k-th valid index gets the k-th embedding and its classification, and every other review gets no embedding, label or probabilities; the list is `MergedOf` the cleaned reviews and embeddings |
| Routes.MergedOfAligned | backend/api/routes.py:127-144 | any list aligned with the valid indices in that way is exactly `MergedOf` the cleaned reviews and embeddings |
| Routes.ScoreStage | backend/api/routes.py:110-144 | steps 2 and 3: an embedding failure propagates at step 2; otherwise the scored reviews, `MergedOf` the cleaned reviews and their embeddings, are stored at step 3 |
| RoutesData.RatingSentiment | backend/api/routes.py:152-160 | 1 or 2 is negative, 3 neutral, 4 or 5 positive; any other integer and any value `int()` rejects give None |
| RoutesData.ScoreRatingOnly | backend/api/routes.py:153-161 | one scored review per rating-only row, in order, with the rating's sentiment and no clean text, embedding or probabilities |
| Routes.RatingOnlyScored | backend/api/routes.py:153-161 | one scored review per rating-only row, in order |
| AspectAggregate.CleanValues | backend/api/routes.py:178 | the aspect extractor receives each cleaned review's `clean` value, in order, and samples are drawn from the same values |
| Routes.AspectStage | backend/api/routes.py:176-181 | step 3.5: a missing API key propagates; otherwise the results, each batch of 25 cleaned texts written back to `[start:start+len(batch)]` in batch order, are stored, and the aggregation (top 10, 3 samples each) is stored or its exception propagates |
| RoutesData.NormalizeLabels | backend/api/routes.py:192-200 | one review per cleaned review, each with its label rewritten and nothing else changed |
| RoutesData.ClassLabelNamed | backend/api/routes.py:192-198 | after the rewrite, a review classified 0, 1 or 2 carries the matching sentiment name |
| Routes.NormalizeKeepsGroups | backend/api/routes.py:185-200 | rewriting labels does not change the keyword groups |
| Routes.NormalizedLabels | backend/api/routes.py:192-200 | one review per cleaned review, each with its label rewritten and nothing else changed |
| Routes.TopKeywordsOfGroups | backend/api/routes.py:185-189 | each sentiment's top keywords are the 25 keywords of that sentiment's group of reviews |
| Routes.KeywordStage | backend/api/routes.py:184-235 | step 4: the rewritten reviews are `NormalizedLabels` of the cleaned ones, the stored keywords are the top 25 of each sentiment group of them, labels are rewritten in both stored review lists, and the keyword-matched samples of the rewritten reviews are stored |
| Routes.StatsStage | backend/api/routes.py:239-253 | the stats are `SummaryOf` all reviews, the keywords and the samples passed in, with 20 samples per sentiment; they never raise, are stored, and the job ends complete at step 6 with its result |
| Routes.AnalyzeScored | backend/api/routes.py:151-253 | the job completes exactly when no stage after scoring raises, and a complete job holds the rewritten scored reviews, the merged list with the rating-only reviews, the aspects, the keywords of each group, the samples and the stats computed from them; a raising stage leaves it processing with its result untouched |
| Routes.Analysis | backend/api/routes.py:46-253 | the capped reviews are stored; the error is the first stage error for those reviews, and the job completes exactly when there is none, never getting a failure status; fetching nothing raises KeyError at step 0; a complete job holds exactly what each stage computes from the fetched reviews |
| Routes.CompletedJobFacts | backend/api/routes.py:184-253 | in a job completed from scored reviews, the cleaned list has one review per scored review and no integer label, the classified list adds the rating-only reviews, the stats count the classified reviews' sentiments, and each sentiment's keywords are those of its group of cleaned reviews |
| Routes.JobStore.RunAnalysis | backend/api/routes.py:46-253 | the analysis replaces its own job and no other; the job completes exactly when no stage raises, and otherwise keeps its old result; the stored job holds what each stage computes from the reviews the producer yields for the SKU |
| Routes.JobStore.Store | backend/api/routes.py:46-253 | writing a job back changes that id's entry only and keeps the store valid |
| Routes.JobStore.GetStatus | backend/api/routes.py:255-263 | an unknown id is a 404; otherwise the status and step, with the sub-steps exactly when the step is 1 and they are set |
| Routes.JobStore.GetResults | backend/api/routes.py:265-273 | a 404 unless the job is complete; otherwise the stored result with `aspect_summary` written into it (the job's summary or `[]`) |
| Routes.WithAspectSummary | backend/api/routes.py:270-272 | the result gains an aspect summary and nothing else changes |
| Routes.WithAspectSummaryIdempotent | backend/api/routes.py:265-273 | reading the results a second time returns what the first read returned |
| Routes.JobStore.GetSummary | backend/api/routes.py:275-287 | a 404 without a stats summary; a 500 carrying the generated text exactly when it starts with "[ERROR]"; otherwise that text with the stored stats |
| Routes.FeedbackRecord | backend/api/routes.py:297-304 | the timestamp is the payload's when truthy and the current time otherwise; the other fields are copied from the payload |
| Routes.SubmitFeedback | backend/api/routes.py:289-312 | succeeds exactly when the write succeeds, appending the record to the log; a failed write is a 500 whose detail starts "Failed to store feedback: " and leaves the log as it was |
| KeywordMatch.Candidates | backend/api/routes.py:209 | the texts searched for a sentiment are exactly the non-empty clean texts of the reviews whose label is that sentiment's name |
| KeywordMatch.Norms | backend/api/routes.py:203-210 | one normalised text (lower-cased, ASCII punctuation removed) per candidate, in order |
| KeywordMatch.GatherSpec | backend/api/routes.py:216-228 | a pass only appends, never past 20 when it starts below 20; what it appends are candidates it admits by substring test, never one already collected in the second pass; ending below 20 means it took every candidate it admits |
| KeywordMatch.MatchesSpec | backend/api/routes.py:212-228 | at most 20 matches, each a candidate containing all or at least one of the keyword's words as substrings; fewer than 20 only when every such candidate was taken |
| KeywordMatch.MatchesTiers | backend/api/routes.py:216-228 | the matches containing all the keyword's words come first, and every later one contains some word but not all |
| KeywordMatch.NoWordsTakesFirst | backend/api/routes.py:213-221 | a keyword with no words (empty or all punctuation) matches the first 20 candidates |
| KeywordMatch.MatchKeyword | backend/api/routes.py:213-228 | the two loops over the zipped candidates and normalised texts, each breaking at 20, compute the two-tier matches |
| KeywordMatch.CollectUpToSpec | backend/api/routes.py:212-230 | the dictionary has distinct keys, and a key has an entry exactly when it is among the entered keys with a non-empty value, holding that value |
| KeywordMatch.KeywordSamplesSpec | backend/api/routes.py:212-233 | one entry per distinct keyword that has matches, holding its matches; keywords without matches are omitted |
| KeywordMatch.MatchKeywords | backend/api/routes.py:212-233 | the loop over one sentiment's keywords builds that sentiment's samples dictionary |
| KeywordMatch.KeywordMatchedSamples | backend/api/routes.py:206-233 | one samples dictionary per sentiment key of `top_keywords`, each from that sentiment's keywords and candidate texts |
| PrepareData.Truncate | prepare_chewy_sentiment_data.py:19 | `int()` of a float truncates toward zero |
| PrepareData.Digits | prepare_chewy_sentiment_data.py:19 | a value exactly for a non-empty string of ASCII digits |
| PrepareData.ParseIntRoundTrip | prepare_chewy_sentiment_data.py:19 | `int(str(n)) == n` for every integer n |
| PrepareData.MapRatingToLabel | prepare_chewy_sentiment_data.py:17-27 | a label exactly when `int(rating)` succeeds: negative for at most 2 (0 and negatives included), neutral for 3, positive for 4 and above (above 5 included) |
| PrepareData.LabelOfFloat | prepare_chewy_sentiment_data.py:19-25 | a float rating gets the label of its truncation toward zero |
| PrepareData.LabelOfText | prepare_chewy_sentiment_data.py:19-25 | a text rating that prints an integer gets that integer's label |
| PrepareData.SameValueSameLabel | prepare_chewy_sentiment_data.py:19-25 | two ratings `int()` reads as the same value get the same label |
| PrepareData.AgreesWithRatingOnlyScoring | prepare_chewy_sentiment_data.py:17-25 | on the star ratings 1 to 5 the training label is the sentiment the analysis service gives a rating-only review |
| PrepareData.Labelled | prepare_chewy_sentiment_data.py:13-32 | a row survives exactly when its text is present and not blank and its rating maps to a label |
| PrepareData.FilterMap | prepare_chewy_sentiment_data.py:13-32 | the kept rows are no more than the input rows |
| PrepareData.FilterMapSpec | prepare_chewy_sentiment_data.py:13-32 | a row is kept exactly when some input row produces it |
| PrepareData.PreparedRowsFromInput | prepare_chewy_sentiment_data.py:13-38 | every output row is the labelled form (text, rating, label) of an input row, with non-blank text and its label read off its rating |
| PrepareData.PreparedKeepsEveryPair | prepare_chewy_sentiment_data.py:13-35 | every kept input row has its (text, label) pair in the output |
| PrepareData.PrepareSpec | prepare_chewy_sentiment_data.py:9-38 | the output holds exactly labelled forms of kept input rows, no (text, label) pair repeats, every kept row's pair is present, and the row kept for a pair is its first, in input order |
| PrepareData.PrepareKeepsFirstRows | prepare_chewy_sentiment_data.py:31-35 | each output row is the labelled form of an input row that no earlier kept row shares its (text, label) pair with |
| PrepareData.PrepareKeepsOrder | prepare_chewy_sentiment_data.py:31-35 | output rows appear in the order of the input rows they come from |
| ResultsDashboard.Max3 | frontend/components/ResultsDashboard.tsx:31 | `Math.max` of three shares is at least each of them and equal to one of them |
| ResultsDashboard.Majority | frontend/components/ResultsDashboard.tsx:30-34 | negative wins every tie it is part of, neutral beats positive on a tie, and positive needs to be strictly ahead of both |
| ResultsDashboard.Verdict | frontend/components/ResultsDashboard.tsx:26-48 | each headline in terms of the three shares (missing ones read as 0): positive majority with at least 80, at least 60, or "Mixed" below; negative majority symmetric; a neutral majority always "Mixed or Neutral" |
| ResultsDashboard.MissingShareIsZero | frontend/components/ResultsDashboard.tsx:27-29 | an absent percentage gives the same headline as a percentage of 0 |
| ResultsDashboard.SixtyIsMajority | frontend/components/ResultsDashboard.tsx:31-44 | for non-negative shares summing to 100, a positive headline is shown exactly when positive is at least 60, and a negative one exactly when negative is at least 60 |
| ResultsDashboard.AverageRatingBounds | frontend/components/ResultsDashboard.tsx:254-259 | the average rating is 0 exactly when there are no 1-5 star counts, and lies between 1 and 5 otherwise |
| ResultsDashboard.AverageOfOneStar | frontend/components/ResultsDashboard.tsx:255-259 | when every counted rating has the same star, the average is that star |
| ResultsDashboard.OtherKeysIgnored | frontend/components/ResultsDashboard.tsx:255 | keys other than "1" to "5" take no part in the average |
| ResultsDashboard.FromEntries | frontend/components/ResultsDashboard.tsx:408-411 | `Object.fromEntries` has exactly the keys of its entries |
| ResultsDashboard.FromEntriesGet | frontend/components/ResultsDashboard.tsx:408-412 | for distinct keys, the object holds each key's own value |
| ResultsDashboard.TaggedLast | frontend/components/ResultsDashboard.tsx:408-412 | in an object built from two entry lists, a key of the second list takes its value from the second |
| ResultsDashboard.TopEntriesSpec | frontend/components/ResultsDashboard.tsx:397-402 | at most ten keywords, most samples first, all from the dict; a keyword left out means ten were shown, none with fewer samples |
| ResultsDashboard.Tag | frontend/components/ResultsDashboard.tsx:409-410 | each keyword paired with the same sentiment |
| ResultsDashboard.TagsMerge | frontend/components/ResultsDashboard.tsx:408-411 | keywords tagged positive then negative: a keyword is tagged negative exactly when it is among the negative ones |
| ResultsDashboard.KeywordChipTags | frontend/components/ResultsDashboard.tsx:397-411 | at most ten chips per sentiment; a keyword has a sentiment exactly when it is a chip, negative exactly when it is a top negative keyword, positive otherwise |
| ResultsDashboard.KeywordChipSamples | frontend/components/ResultsDashboard.tsx:412 | every keyword of either dict has samples; a keyword with negative samples shows those, any other its positive ones |
| ResultsDashboard.AspectChipSentiment | frontend/components/ResultsDashboard.tsx:79 | an aspect chip is never neutral |
| ResultsDashboard.AspectChipFollowsCounts | frontend/components/ResultsDashboard.tsx:79 | a reported aspect's chip is negative exactly when it had more negative than positive mentions; ties and neutral mentions leave it positive |
| SkuInput.ValidateSku | frontend/pages/index.tsx:11-15 | "SKU is required." exactly for empty or whitespace-only input; otherwise "Invalid SKU format." exactly when the trimmed value has a character outside `[A-Za-z0-9_-]`; otherwise the empty string |
| SkuInput.PaddingIgnored | frontend/components/AgentInput.tsx:9-13 | whitespace around a value changes nothing in its validation |
| SkuInput.PaddedWordAccepted | frontend/pages/index.tsx:12-14 | a non-empty run of `[\w\-]` with any whitespace around it is accepted and trims to that run |
| SkuInput.HomeSubmit | frontend/pages/index.tsx:17-31 | a request is posted exactly when the value validates, to the analyze URL of the value as typed; otherwise the validation message is shown; the page moves to the processing page exactly when the request succeeds; a failure shows the server's detail or "Failed to start analysis." |
| SkuInput.AgentSubmit | frontend/components/AgentInput.tsx:15-22 | the validation message is shown, and `startAnalysis` receives the value as typed exactly when it validates |
| SkuInput.PaddedSkuSentAsTyped | frontend/pages/index.tsx:19-24 | a padded SKU passes validation and is sent with its padding: the request uses the untrimmed value |
| Py.Field | backend/core/stats_build.py:119 | a field is found only under its key, and a missing field means no entry has that key |
| Routes.JobStore.constructor | backend/api/routes.py:27 | the job store starts empty |

## Left out

- The sentiment confidence statistics and the review length statistics of `build_stats_summary`: they are floating-point and numpy computations.
- Rounding: percentages are exact rationals (Dafny `real`) rather than the result of `round(..., 2)`; the dashboard's JavaScript numbers are `real` as well, so no float rounding is modelled.
- `datetime.fromisoformat` is modelled by `IsoYearMonth`, whose accepted forms are listed on the next line; a `datetime` value is taken by its year and month.
- IsoYearMonth: reads `YYYY-MM-DD` alone or followed by one separator and `HH`, `HH:MM` or `HH:MM:SS`, each optionally followed by a 3- or 6-digit fraction, then an optional `+HH:MM`/`-HH:MM` offset with hours up to 23 and minutes up to 59. Every other form is read as unparsable, including these that some Python versions accept: an offset that carries seconds or a fraction; offset minutes above 59 and other quirks of the C parser of Python 3.7 to 3.10 (a `:` in place of the point before the fraction, a time ending in `:` before the offset); and the forms only Python 3.11 and later accept (a `Z` suffix, compact and week dates, compact times, other fraction lengths, a comma before the fraction).
- TimeTrends: because of `IsoYearMonth`, a review whose date uses one of the forms it does not read is skipped in the trends, where Python would count it.
- BuildStatsSummary: its trends are those of `TimeTrends`, with the same limit on the date forms read.
- AspectExtract.BatchLlmExtractAspects: the batches run concurrently under `asyncio.gather` and each writes back when its answer arrives; the model writes them back in batch order. With well-sized answers the slices are disjoint and the order does not matter (`AspectExtract.AlignedWhenWellSized`); with a wrongly sized answer the final list can depend on the completion order, which is not modelled.
- Lower-casing and `\w` are ASCII-only; Unicode case mapping and Unicode word characters are not modelled. The whitespace classes of `str.isspace()`, of the `regex` package's `\s` and of JavaScript's `trim` are modelled in full.
- `random.sample` is a parameter that returns the positions it picks; any distinct positions of the right number are allowed, so the statistics hold for every draw but no distribution is modelled.
- pandas type inference is not modelled: a rating cell is one of missing, integer, float or text, and the route's `product_rating` is none, an integer or some other value.
- File output (`save_step_output`, the CSV read and write of the preparation script, `feedback.jsonl`) is not modelled; the feedback write is a parameter that may fail.
- Concurrency: `asyncio.create_task`, the sleeps and the background task are modelled as one analysis running to its end, so no poll can observe a job between two of its updates, and interleaving of several jobs is not modelled.
- The generated summary text (`generate_gpt_summary`), the OpenAI embedding and chat endpoints, the sentiment classifier, KeyBERT, the review database (`fetch_reviews`, taken as a finite list), `uuid4` and the clock are parameters.
- The classic cleaner (`clean_text.py`) is not part of this model: it is a parameter function from raw to cleaned text. The `USE_LLM_CLEAN` environment variable is a field of the services record.
- The helpers of the cleaning graph that wrap external libraries (HTML parsing, mojibake repair, emoji removal, the spell checker, the lemmatiser, SHA-256) are parameters; `control_step` calls no library and is modelled as written; `langdetect_step` is never called and is left out.
- Python `int()` of text is modelled for ASCII digits with an optional sign and surrounding whitespace; underscores between digits and non-ASCII digits are not accepted by the model. Infinite and NaN floats are not modelled.
- `Object.entries` is modelled in insertion order; JavaScript's rule that integer-like keys come first is not modelled.
- The dashboard's sample counts are the lengths of sample lists; a non-list value, which the page counts as one sample, is not modelled.
- The unused counts argument of `getSentimentVerdict` is dropped; the HTTP client, navigation and `startAnalysis` are outputs of the submit handlers; rendering and the PDF and JSON exports are left out.
- Logging and printing are left out.
- KeywordMatch.Candidates: states which reviews are candidates, not the order they are visited in.

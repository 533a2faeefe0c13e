# Renal label audit — a Dafny model

This project models the reconciliation core of a renal-diet label checker. A nutrition label is
compared with a USDA FoodData Central record for the same product. The model covers these parts:

- zero-safe numeric coercion (`to_float`);
- the per-nutrient comparison table, built from a fixed template and updated in place;
- the signed percentage delta between a label value and a USDA value;
- the tiered audit verdict: green "Renal Safe", yellow "Data Mismatch", red "High Renal Load";
- the USDA side: nutrient extraction by id, scaling from 100 units to one serving, field defaults,
  data-type filtering, the stable relevance ranking and the top-five cut, and label cleaning;
- the flat row saved to Airtable for a USDA product.

Modules, in dependency order:

- `Wrappers` holds `Option` and `Result`.
- `PyValues` holds Python's dynamic values: `None`, int, float, str and dict.
- `Text` holds `strip`, `lower`, `title` and `replace(c, "")`.
- `Coercion` holds `to_float`, with a decimal reader standing in for `float(str)`.
- `Comparison` holds the table, with the class `ComparisonTable` whose rows are updated in place.
- `Delta` holds `_coerce_number` and `calculate_delta`.
- `Audit` holds `get_audit_details`.
- `Usda` holds the USDA part of renal_app/usda_api.py.
- `Airtable` holds `prepare_airtable_record`.

The imperative loops of the source are methods with loop invariants, each proved against a
specification function:

- `Comparison.UpdateRows` is proved against `Updated`.
- `Audit.GetAuditDetails` and `Audit.ExamineNutrient` are proved against `Verdict`, `FlagsOf` and
  `DiscrepanciesOf`. The loop body's limit checks and delta check are the methods
  `Audit.CheckLimit` and `Audit.CheckDelta`.
- `Usda.ScaleNutrients` is proved against `Scaled`.
- `Usda.ScoreFoods` is proved against `Scores`.

The lemmas beside those functions state what the source promises. The verdict lists are defined over
a `Reader`, which gives the amount read for each nutrient and side. `Audit.ReaderOf` is the reader
that applies `to_float` to a table's rows.

Inputs that come from outside the core are parameters:

- the USDA food list, which the HTTP search would return;
- the fuzzy matcher `fuzz.token_sort_ratio`, an arbitrary function `ratio`;
- Python's `repr` of a float or dictionary FDC id, a function `repr`.

`init_comparison_data` returns a deep copy. In the model the template is an immutable map value, so
no update of a table can reach it.

## Model

| member | source | states |
|---|---|---|
| PyValues.Get | renal_app/logic.py:90-92 | `d.get(k)` is the stored value when `k` is present and None when it is absent |
| PyValues.GetOr | renal_app/airtable_api.py:18-31 | `d.get(k, default)` gives the default only when `k` is absent |
| Text.TrimStart | renal_app/logic.py:11 | `lstrip` gives a suffix of the input, what it drops is whitespace, and the result does not start with whitespace |
| Text.TrimEnd | renal_app/logic.py:11 | `rstrip` gives a prefix of the input, what it drops is whitespace, it does not end with whitespace, and it is empty exactly when the input is all whitespace |
| Text.Strip | renal_app/logic.py:11 | `strip()` is empty exactly when the input is all whitespace; a non-empty result has no whitespace at either end |
| Text.TrimBlank | renal_app/logic.py:11 | stripping gives "" exactly for whitespace-only strings, both directions |
| Text.TrimEnds | renal_app/usda_api.py:53 | a non-empty stripped string starts and ends with non-whitespace |
| Text.StripIsInfix | renal_app/usda_api.py:53 | the stripped string is the run of the input that starts right after the leading whitespace |
| Text.StripUnpadded | renal_app/logic.py:17 | a string with no whitespace at either end is left as it is |
| Text.StripIdempotent | renal_app/usda_api.py:53 | stripping twice is the same as stripping once |
| Text.Lower | renal_app/logic.py:11 | `lower()` keeps the length and lower-cases each character on its own |
| Text.Title | renal_app/usda_api.py:53 | `title()` keeps the length and every non-letter; a letter that starts a word (no letter before it) becomes upper case, any other letter lower case, and it stays the same letter |
| Text.TitleIsDetermined | renal_app/usda_api.py:53 | any string meeting the contract of `Title` is `Title(s)`: the contract fixes every character |
| Text.TitleOfWord | renal_app/usda_api.py:53-54 | a run of letters such as "GREEK" becomes its first letter upper-cased and the rest lower-cased |
| Text.TitleSplits | renal_app/usda_api.py:53-54 | words separated by a non-letter are title-cased independently, so "GREEK YOGURT" is cased word by word |
| Text.TitleIdempotent | renal_app/usda_api.py:53 | title-casing twice is the same as title-casing once |
| Text.RemoveAll | renal_app/logic.py:17 | `replace(c, "")` leaves no `c` behind and never lengthens the string |
| Text.RemoveAllAbsent | renal_app/logic.py:17 | removing a character that does not occur changes nothing |
| Text.RemoveAllAppend | renal_app/logic.py:17 | the removal distributes over concatenation |
| Text.RemoveAllKeeps | renal_app/logic.py:17 | every character that survives the removal occurs in the input |
| Coercion.NatToDecimal | renal_app/airtable_api.py:20 | `str(n)` of a natural number is a non-empty digit string whose value is `n`, with no leading zero unless it is "0" |
| Coercion.IntToDecimal | renal_app/airtable_api.py:20 | `str(i)` starts with '-' exactly for a negative `i`; the rest is a digit string whose value is `abs(i)`, with no leading zero unless it is "0" |
| Coercion.IntToDecimalShape | renal_app/airtable_api.py:20 | `str(i)` starts with a digit or '-', ends with a digit and holds no comma |
| Coercion.ParseIntToDecimal | renal_app/logic.py:20 | `float(str(i)) == i` for every integer |
| Coercion.ParseUnsigned | renal_app/logic.py:20 | an unsigned decimal holds only digits and at most one point, and at least one digit; its value is non-negative, and a plain digit run reads as its value |
| Coercion.ParseFloat | renal_app/logic.py:20 | a string `float` accepts holds a digit, has an optional sign first and otherwise only digits and a point; a value below zero needs a leading '-', and a leading '-' gives no positive value |
| Coercion.ParseRejectsNonNumeric | renal_app/logic.py:20-24 | a string that starts with neither a digit, a sign nor a point makes `float` fail |
| Coercion.ToFloat | renal_app/logic.py:5-24 | ints and floats keep their value, None and dicts give 0.0, strings are read by `ReadString` |
| Coercion.ReadString | renal_app/logic.py:11-24 | a blank string or "null" in any case gives 0.0, and so does a string `float` rejects after commas and surrounding whitespace are removed; otherwise the value `float` reads; a non-zero result is always what `float` read |
| Coercion.IntToDecimalIsPlain | renal_app/airtable_api.py:20 | what `str` writes for an int has no whitespace at either end, no comma and is not "null", so `to_float` reads it directly |
| Coercion.ParseDigits | renal_app/logic.py:20 | `float` reads a digit string as its value |
| Coercion.ParseDecimal | renal_app/logic.py:20 | `float` reads "digits.digits" as the decimal they spell |
| Coercion.ToFloatOfNumbers | renal_app/logic.py:11-20 | ints and floats pass through `to_float` unchanged, and None becomes 0.0 |
| Coercion.ToFloatOfBlank | renal_app/logic.py:11-12 | a whitespace-only string, "" included, becomes 0.0 |
| Coercion.ToFloatOfNull | renal_app/logic.py:11-12 | "null" in any mix of cases becomes 0.0 |
| Coercion.NullIsNotANumber | renal_app/logic.py:11-20 | no spelling of "null" is a decimal |
| Coercion.ToFloatOfNotANumber | renal_app/logic.py:22-24 | "N/A" becomes 0.0 instead of raising |
| Coercion.NotANumber | renal_app/logic.py:14-24 | every comma-free string that starts with a letter, is not "null" and has no trailing blank becomes 0.0 |
| Coercion.RemoveAllKeepsBlank | renal_app/logic.py:17 | removing commas from a blank string leaves it blank |
| Coercion.CommasAreIgnored | renal_app/logic.py:11-20 | `to_float(s) == to_float(s.replace(",", ""))` for every string, wherever its commas stand |
| Coercion.ToFloatOfIntToDecimal | renal_app/logic.py:5-24 | writing an integer and reading it back with `to_float` gives the integer |
| Coercion.ToFloatOfGroupThousands | renal_app/logic.py:15-20 | a natural number written with thousands separators reads back as that number |
| Coercion.ToFloatOfThousandsExample | renal_app/logic.py:15-20 | "1,200" becomes 1200.0 |
| Coercion.ReadDigits | renal_app/logic.py:14-20 | a digit string becomes its value |
| Coercion.ReadPlain | renal_app/logic.py:14-20 | a comma-free string with a digit in front and no trailing blank is read by `float` directly |
| Coercion.ReadUnpadded | renal_app/logic.py:14-20 | a comma-free string other than "null", with no blank at either end, is read by `float` directly |
| Coercion.ReadDecimal | renal_app/logic.py:14-20 | "digits.digits" becomes the decimal it spells |
| Coercion.ToFloatOfFractionExample | renal_app/logic.py:14-20 | "12.5" becomes 12.5 |
| Comparison.TemplateShape | renal_app/logic.py:68-77 | the template has exactly the eight listed nutrients, each with both sides None |
| Comparison.ComparisonTable.Init | renal_app/logic.py:80-81 | `init_comparison_data()` is a fresh table equal to the template |
| Comparison.UpdateComparisonData | renal_app/logic.py:84-94 | a missing or empty table is replaced by a fresh one from the template and is itself left alone; otherwise the given table is updated in place and returned |
| Comparison.UpdateRows | renal_app/logic.py:88-92 | after the loop every row equals `Updated` of the rows before it: no row is added or lost |
| Comparison.Updated | renal_app/logic.py:88-92 | an update keeps exactly the table's keys; with label values given a row's label side becomes `label_vals.get(n)`, None when absent, and is kept otherwise; the USDA side behaves the same way |
| Comparison.UpdateWithoutDataIsNoOp | renal_app/logic.py:89-92 | with neither source given, or both empty, the table is unchanged |
| Comparison.UpdateIsIdempotent | renal_app/logic.py:88-92 | repeating an update with the same data changes nothing more |
| Comparison.UpdatesCompose | renal_app/logic.py:88-92 | a label update followed by a USDA update equals one update with both |
| Comparison.UpdateForgetsStaleValues | renal_app/logic.py:88-92 | with both sources given, the old values do not matter; only the key set does |
| Comparison.UpdateIgnoresExtraKeys | renal_app/logic.py:90 | keys of `label_vals` that are not rows of the table have no effect |
| Comparison.UnrelatedLabelsClear | renal_app/logic.py:89-90 | a non-empty label dict that names no row still clears every label side to None |
| Delta.CalculateDelta | renal_app/logic.py:96-107 | None exactly when either side is no int or float, or the label is zero; otherwise `usda == label * (1 + delta/100)` |
| Delta.CoerceNumber | renal_app/logic.py:96-99 | `_coerce_number` gives a number exactly for ints and floats, their own value, and None for everything else |
| Delta.DeltaOfZeroLabel | renal_app/logic.py:105-106 | a zero label, int or float, never yields a delta |
| Delta.DeltaSign | renal_app/logic.py:107 | the delta is zero exactly when the two values are equal; for a positive label it is positive exactly when USDA is above it; for a negative label it is positive exactly when USDA is below it |
| Delta.DeltaAbove | renal_app/logic.py:107 | for a positive label, delta > t exactly when usda > label * (1 + t/100) |
| Audit.ReaderOf | renal_app/logic.py:118-120 | the amount read for a nutrient and side is `to_float` of that side of its row, a blank row when the nutrient is absent |
| Audit.NutrientFlags | renal_app/logic.py:121-134 | one nutrient raises at most two flags, each on an amount above its truthy limit with `excess == amount - limit`; with two, the label flag comes first |
| Audit.GetAuditDetails | renal_app/logic.py:109-144 | the loop computes `Verdict(data)`; red exactly when there are flags; yellow exactly when there are no flags but some discrepancies; green otherwise, with status "Renal Safe"; red has status "High Renal Load" |
| Audit.Verdict | renal_app/logic.py:109-144 | red exactly when there are flags, yellow exactly when there are no flags but some discrepancies, green otherwise, with status "High Renal Load", "Data Mismatch" or "Renal Safe" to match |
| Audit.ExamineNutrient | renal_app/logic.py:117-142 | one iteration appends the nutrient's own flags and discrepancies and keeps colour and status in step with the lists |
| Audit.CheckLimit | renal_app/logic.py:124-134 | one `if limit and value > limit` block appends a flag exactly when the amount exceeds a non-zero limit and then turns the status red; otherwise nothing changes |
| Audit.CheckDelta | renal_app/logic.py:137-142 | a discrepancy is appended exactly when the delta exceeds 20 percent; the status turns yellow then unless it is already red |
| Audit.CoerceNumberAgreesWithToFloat | renal_app/logic.py:5-24 | on ints and floats `_coerce_number` and `to_float` agree; a value that is neither a number nor a string is 0.0 for `to_float` |
| Audit.ExamineOneMore | renal_app/logic.py:117-142 | the lists after `i + 1` nutrients are those after `i`, extended by nutrient `i`'s own |
| Audit.ExtendByOne | renal_app/logic.py:117-142 | appending a nutrient to the list examined appends its flags and discrepancies |
| Audit.ReportsGrow | renal_app/logic.py:117-142 | examining more nutrients only extends the flags and discrepancies found so far |
| Audit.RedIsSticky | renal_app/logic.py:124-142 | the colour's severity never drops while nutrients are examined; once red it stays red with "High Renal Load" |
| Audit.NutrientFlagsExact | renal_app/logic.py:121-134 | each flag of a nutrient describes that nutrient, and a side is flagged exactly when it exceeds the limit |
| Audit.FlagsOfExact | renal_app/logic.py:117-134 | every flag describes a nutrient of the examined list, and such a nutrient is flagged on a side exactly when that side exceeds the limit |
| Audit.VerdictFlags | renal_app/logic.py:109-134 | the verdict's flags are exactly the sides of critical nutrients whose `to_float` value is above the limit, each with amount, limit, excess and unit |
| Audit.MismatchMeaning | renal_app/logic.py:137-138 | `delta and delta > 20` holds exactly when the label is positive and USDA is above 1.2 times it, or the label is negative and USDA is below 1.2 times it |
| Audit.DiscrepanciesOfExact | renal_app/logic.py:117-139 | every discrepancy cites both amounts of a mismatching nutrient of the list, and every such nutrient is cited |
| Audit.VerdictDiscrepancies | renal_app/logic.py:109-139 | the verdict's discrepancies are exactly the critical nutrients whose delta exceeds 20 percent |
| Audit.ReportBounds | renal_app/logic.py:117-139 | at most two flags and one discrepancy per nutrient examined |
| Audit.VerdictBounds | renal_app/logic.py:48-56 | a verdict has at most 14 flags and 7 discrepancies |
| Audit.SameReadingsSameReport | renal_app/logic.py:117-120 | readers that agree on the nutrients examined give the same lists |
| Audit.OnlyCriticalMatter | renal_app/logic.py:117-118 | tables that agree on the critical rows get the same verdict |
| Audit.CaloriesNeverExamined | renal_app/logic.py:48-56 | changing or removing the Calories row changes no verdict |
| Audit.LimitsArePositive | renal_app/logic.py:58-66 | every safety limit is positive, so `if limit` holds for every limit that exists |
| Audit.CriticalNutrientsHaveLimits | renal_app/logic.py:48-66 | every entry of CRITICAL_NUTRIENTS has a SAFETY_LIMITS entry and the other way round; Calories is in neither |
| Audit.ZeroReadingIsQuiet | renal_app/logic.py:124-138 | a nutrient read as zero on both sides raises no flag and no discrepancy |
| Audit.BlankRowReadsZero | renal_app/logic.py:118-120 | an absent row, or one with both sides None, reads as zero |
| Audit.OnlyOneRow | renal_app/logic.py:117-142 | when every other nutrient reads as zero, the lists are that nutrient's own |
| Audit.OnlyOneRowFlags | renal_app/logic.py:117-134 | the flag half of `OnlyOneRow` |
| Audit.OnlyOneRowDiscrepancies | renal_app/logic.py:137-139 | the discrepancy half of `OnlyOneRow` |
| Audit.VerdictOfOneRow | renal_app/logic.py:109-144 | with every other critical row blank, the verdict's lists are the one nutrient's own |
| Audit.EmptyTablesAreSafe | renal_app/logic.py:110-118 | the empty table and the template get the green "Renal Safe" verdict with no flags and no discrepancies |
| Audit.ReadsWhole | renal_app/logic.py:119-120 | a row holding two ints reads as those numbers |
| Audit.SodiumOverBothLimits | renal_app/logic.py:124-134 | Sodium at 300 on the label and 250 in USDA, other critical rows blank: both sides flagged against 140 mg, red, "High Renal Load" |
| Audit.SodiumFlags | renal_app/logic.py:124-138 | the flags and the missing discrepancy of that sodium row |
| Audit.SugarMismatch | renal_app/logic.py:137-142 | Sugar at 10 on the label and 13 in USDA, other critical rows blank: no flag, one discrepancy, yellow, "Data Mismatch" |
| Audit.SugarFlags | renal_app/logic.py:124-139 | the missing flags and the discrepancy of that sugar row |
| Audit.MissingLabelIsNoMismatch | renal_app/logic.py:119-142 | Protein missing on the label and 12 in USDA, other rows blank: the label reads 0, no delta is taken, green |
| Audit.ProteinQuiet | renal_app/logic.py:124-138 | that protein row raises neither a flag nor a discrepancy |
| Usda.RoundHalfEven | renal_app/usda_api.py:183 | the rounding lies within one half of the value, and a tie goes to the even integer |
| Usda.RoundHalfEvenOfInt | renal_app/usda_api.py:183 | an integer rounds to itself |
| Usda.Round2 | renal_app/usda_api.py:183 | `round(x, 2)` lies within 0.005 of `x` |
| Usda.Round2OfHundredths | renal_app/usda_api.py:183 | a value with at most two decimals is kept by `round(x, 2)` |
| Usda.NameOf | renal_app/usda_api.py:164-177 | an entry is stored only under one of the seven mapped names |
| Usda.NutrientIdsNames | renal_app/usda_api.py:164-172 | every id of `id_map` names one of the seven extracted nutrients, and no two ids share a name |
| Usda.ScaleNutrients | renal_app/usda_api.py:174-183 | the loop over `foodNutrients` builds exactly `Scaled`, the dictionary of the entries read in order |
| Usda.Scaled | renal_app/usda_api.py:174-183 | the nutrients dictionary only ever holds the seven mapped names |
| Usda.ScaledKeys | renal_app/usda_api.py:164-177 | only the seven mapped names are stored; Phosphorus never is |
| Usda.ScaledLastWins | renal_app/usda_api.py:174-183 | a name is stored exactly when some entry maps to it, and its value is `round(value * ratio, 2)` of the last such entry, a missing value counted as 0 |
| Usda.ZeroServingZeroesNutrients | renal_app/usda_api.py:159-183 | a zero serving size stores zero for every nutrient, for want of a guard |
| Usda.ProteinPerServing | renal_app/usda_api.py:159-183 | 10 g of protein per 100 g is stored as 3 g for a 30 g serving |
| Usda.BrandOr | renal_app/usda_api.py:190 | `brandName or brandOwner or fallback`: a non-empty brand name wins, else a non-empty brand owner, else the fallback |
| Usda.FetchFoodDetails | renal_app/usda_api.py:149-193 | an error exactly when the food list is empty; otherwise only the first food is used: serving size defaults to 100 only when absent, nutrients are `Scaled` by `servingSize / 100`, the unit defaults to "g", ingredients to "N/A", the brand falls back to "Generic" title-cased, the description is cleaned, and the id is echoed |
| Usda.DetailsRecord | renal_app/usda_api.py:152-193 | the error dictionary has only "error"; a found food's dictionary has exactly the seven detail keys, with nutrients as a nested dict |
| Usda.CleanUsdaLabel | renal_app/usda_api.py:48-55 | "" for None or ""; otherwise `Title(Strip(text))`, the stripped text in title case, which is empty exactly for whitespace and has no whitespace at either end |
| Usda.CleanUsdaLabelIdempotent | renal_app/usda_api.py:48-55 | cleaning a cleaned label changes nothing |
| Usda.RelevanceScore | renal_app/usda_api.py:32-43 | half the ratio of the lower-cased query against the lower-cased description, plus half its ratio against the lower-cased brand (`brandName`, else `brandOwner`) when there is one; with ratios in [0, 100] the score is in [0, 100] |
| Usda.Scores | renal_app/usda_api.py:33-43 | every food paired with its own score, in input order |
| Usda.ScoreFoods | renal_app/usda_api.py:32-43 | the scoring loop builds exactly `Scores` |
| Usda.Insert | renal_app/usda_api.py:46 | insertion adds exactly one item to the multiset |
| Usda.InsertDescending | renal_app/usda_api.py:46 | inserting into a descending list keeps it descending |
| Usda.SortByScore | renal_app/usda_api.py:46 | `sorted(reverse=True)` on the score is a permutation in non-increasing score order |
| Usda.InsertStable | renal_app/usda_api.py:46 | insertion keeps the order among items of equal score |
| Usda.SortStable | renal_app/usda_api.py:46 | the sort is stable: items of equal score keep their input order |
| Usda.SortResultsByRelevance | renal_app/usda_api.py:31-46 | a permutation of the scored foods, each with its own score, in non-increasing score order, with ties in input order; it is the stable sort `SortByScore` of the scores |
| Usda.FilterAllowed | renal_app/usda_api.py:76-80 | keeps exactly the foods whose dataType is allowed, each as often as in the input |
| Usda.FilterAllowedAppend | renal_app/usda_api.py:77-80 | the filter keeps the foods' order: it distributes over concatenation |
| Usda.TopAreBest | renal_app/usda_api.py:88 | no item cut from a descending list scores above an item kept |
| Usda.PrefixOfRanking | renal_app/usda_api.py:88 | a prefix of a descending list is descending, takes no item more often than the list, and keeps the earliest items of each score |
| Usda.WithScoreAppend | renal_app/usda_api.py:46 | the items of one score of a concatenation are those of its two parts, in order |
| Usda.CandidatesAreAllowed | renal_app/usda_api.py:76-87 | every ranked candidate is an allowed food of the search result |
| Usda.SelectTopMatches | renal_app/usda_api.py:71-88 | the two warnings for no foods and no allowed foods; otherwise the first `min(5, allowed)` of the stable ranking of the allowed foods: best first, each candidate at most as often as it occurs, none outscored by a food left out, and among foods of one score the earliest ones |
| Usda.TopOfRanking | renal_app/usda_api.py:87-88 | the first five of the stable ranking of the allowed foods are allowed foods of the search, best first, a sub-multiset of the candidates, never outscored by a food cut, and among foods of equal score the earliest in input order |
| Airtable.PyStr | renal_app/airtable_api.py:20 | `str(v)` keeps strings, writes None as "None" and ints in decimal |
| Airtable.PrepareRecord | renal_app/airtable_api.py:12-33 | the FDC_ID column is always present and always a string, as `str()` makes it |
| Airtable.PyStrOfIntReadsBack | renal_app/airtable_api.py:20 | the text of an int id reads back through `to_float` as that int |
| Airtable.RecordHasThirteenColumns | renal_app/airtable_api.py:17-32 | the row always has exactly the thirteen columns from "Product" through "USDA Fiber (g)" |
| Airtable.RecordColumns | renal_app/airtable_api.py:17-32 | every column name is a key of the row, and every key of the row is a column name |
| Airtable.ThirteenColumns | renal_app/airtable_api.py:17-32 | there are thirteen distinct column names |
| Airtable.IdentityColumnsRead | renal_app/airtable_api.py:18-20 | Product, Brand and FDC_ID copy their keys of the details, "" when absent, FDC_ID as text |
| Airtable.ServingColumnsRead | renal_app/airtable_api.py:21-24 | Ingredients, serving size and serving unit copy their keys of the details, "" when absent |
| Airtable.NutrientColumnsRead | renal_app/airtable_api.py:14-31 | each nutrient column holds that nutrient's value when present and 0 otherwise |
| Airtable.MissingNutrientsAreZero | renal_app/airtable_api.py:14-31 | without a nutrients dict all seven nutrient columns are 0 |
| Airtable.FdcIdColumn | renal_app/airtable_api.py:20 | FDC_ID is "" when absent, the id itself when it is a string, and the text of an int id reads back as that int |
| Airtable.RecordReadsOnlyDetails | renal_app/airtable_api.py:12-33 | two details dictionaries that agree on the seven keys read give the same row; nothing else enters it |
| Airtable.RecordOfFoundFood | renal_app/airtable_api.py:17-24 | saving a found food's details copies its description, brand, id, ingredients and serving into the text columns |
| Airtable.NutrientsOfFoundFood | renal_app/airtable_api.py:25-31 | saving a found food's details puts its scaled amounts in the nutrient columns, and 0 for the nutrients not found |
| Airtable.RecordOfMissingFood | renal_app/airtable_api.py:14-32 | saving the error dictionary of a food not found gives empty text columns and zero nutrient columns |

## Left out

- The Streamlit pages, widgets and session state are not modelled. That includes the caption and
  radio code of `display_and_select_usda_results` after the top-five cut (renal_app/usda_api.py:90-129).
  These are presentation only.
- The HTTP clients (`search_usda_foods`, `push_to_airtable`), OCR and the language-model calls are
  not modelled. The food list a search returns is a parameter of `Usda.FetchFoodDetails` and
  `Usda.SelectTopMatches`.
- `fuzz.token_sort_ratio` is a foreign library. It is the arbitrary function `ratio`.
- The flag and discrepancy messages are f-strings with Python's float formatting. They are modelled
  as structured `Audit.Flag` and `Audit.Discrepancy` values that carry the same numbers and units.
- Coercion.ParseFloat: reads an optional sign, then digits with at most one point and at least one
  digit, so ".5" and "5." are read. Some strings Python's `float` accepts read as 0.0 here:
  exponents ("1e3"), "inf", "nan", underscores between digits ("1_000") and non-ASCII decimal
  digits such as "１２".
- Text.IsSpace: follows `str.isspace`. `Text.Lower` and `Text.Title` change ASCII letters only;
  Python's full Unicode case mapping is not modelled.
- Usda.Round2: exact half-even rounding on reals. Python rounds binary floats, whose result can
  differ at the last digit.
- Nutrient values and serving sizes are reals. IEEE float behaviour is not modelled.
- `Delta.CoerceNumber` does not treat `bool` as an int.
- A key that is present but holds None crashes the source in several places, for example
  `item.get("description", "").lower()`. The model has no such state: an absent key and `None` are
  the same `Option`.
- The in-place write of `relevance_score` into each USDA item is not modelled. The ranking pairs
  each food with its score (`Usda.Scored`) instead, so aliasing between input and output lists is
  not modelled either.
- Airtable.PyStr: Python's `repr` of a float or dict id is the parameter `repr`.
- Airtable.PrepareRecord: requires that a present `nutrients` entry is a dict. The source fails
  there with an AttributeError on anything else.
- Airtable.PrepareRecord: its own contract states only that the FDC_ID column is a string. The
  other columns are stated by `Airtable.RecordColumns`, `Airtable.RecordHasThirteenColumns` and the
  column lemmas, because stating all thirteen in the function's contract makes every proof that uses
  it too costly for the verifier.
- The audit page imports `get_audit_verdict`, which renal_app/logic.py does not define. The verdict
  modelled is that of `get_audit_details`.
- The model follows the code as written in four places where a reader might expect otherwise:
  - `fetch_usda_food_details` has no zero-serving guard: a serving size of 0 gives a ratio of 0 and
    every nutrient 0 (`Usda.ZeroServingZeroesNutrients`);
  - `id_map` has no Phosphorus id and no saturated or trans fat ids, so those nutrients are never
    extracted from USDA data (`Usda.ScaledKeys`);
  - the discrepancy test is `delta > 20`, a threshold of 20 percent;
  - the sodium limit in SAFETY_LIMITS is 140 mg.

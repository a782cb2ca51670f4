# Debt-collection dashboard: the computations behind the tables

`dashboardNoviembre.py` is a Streamlit dashboard over a spreadsheet of
debt-collection accounts (AFP PRIMA / WORLDTEL, November 2025). Most of
the script is presentation. This project models the calculations that sit
between the loaded sheet and what the dashboard shows, as pure Dafny
functions over a sequence of account records:

- **Risk classifier** (`Risk`). This is the `NIVEL_RIESGO` cascade. It assigns
  each account exactly one of `+ALTA`, `ALTA`, `MEDIA` or `BAJA`, using three
  inputs: the priority text, the contactability text and the raw
  `REC. PLANILLAS` cell.
- **Amount cleaner** (`Amount`). This is `_clean_monto`: the two regex passes,
  the comma/period rule, and Python's `float()` grammar. It includes the
  money text the dashboard prints (`S/. 1,234.50`) and what the cleaner makes
  of it.
- **Spreadsheet serial dates** (`Dates`). This is the numeric branch of
  `_parse_fecha_serie`: day `1899-12-30 + int(v)`. It also covers the
  column-level choice between that branch and the text parser, and the
  fallback after an overflowing serial, which reads every number as
  nanoseconds since 1970. For text, pandas 2 infers one format for the
  whole column and reads every text cell with it. The format comes from
  the first cell that is not missing, empty, a NaT spelling, "now" or
  "today".
- **Group-by summaries** (`Grouping`, `Summary`, `CampaignTable`, `RoundedTable`,
  `AdvisorTable`, `PriorityTable`, `LevelSummary`, `Kpis`):
  - pandas `groupby` drops accounts with a missing key and sorts the keys;
  - sums skip missing values;
  - percentages are guarded against a zero denominator;
  - covered outputs: the campaign table and its `TOTAL` row, the advisor table
    with `int(round(..))` money, the first-name recovery totals, the priority
    table with its campaign/advisor filter and a `TOTAL` row re-summed from the
    rounded group rows, the risk-level summary in its fixed order, and the KPI
    cards.
- **Payment ledger and history** (`Ledger`, `History`):
  - the ledger is the planillas events followed by the gastos events, cleaned,
    defaulted, stripped, and filtered by the keep rule;
  - a side whose columns are missing still contributes the pie-chart table
    its variable name holds from earlier in the script; those rows are
    dropped, or make the page fail when neither side exists;
  - the history view filters by campaign, kind and an inclusive date range,
    sorts latest first, and computes the five metrics, the per-day sums and the
    running total.

Support modules:

| module | what it provides |
|---|---|
| `Wrappers` | `Option` |
| `Text` | `str.strip`, ASCII `str.lower`, `split()[0]`, code-point string order |
| `Records` | the account record, and the `Cell` type for raw spreadsheet cells |
| `Numbers` | the guarded percentage, truncation, round-half-to-even |
| `Ordering` | the sorted, distinct key lists |

Amounts are exact reals and days are integers counted from 1970-01-01.
Spreadsheet I/O and the text-date parser are not modelled in detail. The
text-date parser's routines are a parameter `parseText: TextParser`: guess a
format from one string, read a cell with a format, or read a cell on its
own. Which routine applies to which cell is modelled.

Points where the code's behaviour is easy to misread:
- A priority `"05"` is `MEDIA`: `"05"` is among the medium prefixes at dashboardNoviembre.py:860.
- The advisor table (dashboardNoviembre.py:686-708) gets no `TOTAL` row; only the campaign and priority tables append one.
- The priority table's `TOTAL` money and percentages are re-summed from the already-rounded per-group integers (dashboardNoviembre.py:781-799), not taken from exact grand totals.
- `_clean_monto("S/. 1,234.50")` is NaN, not `1234.50` (see Findings).

## Model

| member | source | states |
|---|---|---|
| `Risk.Classify` | dashboardNoviembre.py:842-865 | Each account gets exactly one level. `+ALTA` iff the priority starts with "13", the stripped and lower-cased contactability is "contacto directo", and REC. PLANILLAS is missing, 0 or "". `ALTA` iff "13" and not critical. `MEDIA` iff it has a medium prefix and not "13". `BAJA` otherwise. |
| `Risk.FirstMatch` | dashboardNoviembre.py:852-862 | The label is that of the first rule that holds, and `BAJA` only when none holds. |
| `Risk.PrefixesDisjoint` | dashboardNoviembre.py:855-864 | No priority text starts with both "13" and one of the medium prefixes. |
| `Risk.AssignedIsClassify` | dashboardNoviembre.py:859-865 | The later unconditional `MEDIA` assignment changes no label: the cascade with or without it equals `Classify`. |
| `Risk.NameInjective` | dashboardNoviembre.py:878 | The four level labels are pairwise distinct, so grouping by label is grouping by level. |
| `Risk.DirectContactExample` | dashboardNoviembre.py:849 | " Contacto DIRECTO" strips and lower-cases to "contacto directo". |
| `Risk.LeadingSpaceStripped` | dashboardNoviembre.py:849 | Stripping removes the leading blank of " Contacto DIRECTO" and nothing else. |
| `Risk.LowerExample` | dashboardNoviembre.py:849 | Lower-casing "Contacto DIRECTO" gives "contacto directo". |
| `Risk.ClassifyCriticalExample` | dashboardNoviembre.py:847-853 | Priority "13", contactability " Contacto DIRECTO" and planillas 0 give `+ALTA`. |
| `Risk.ClassifyMediumExample` | dashboardNoviembre.py:860-865 | Priority "05" gives `MEDIA`. |
| `Risk.ClassifyHighExample` | dashboardNoviembre.py:855-857 | Priority "13" with any other contactability gives `ALTA`. |
| `Risk.ClassifyUnpaddedPriority` | dashboardNoviembre.py:848-864 | A priority rendered as "5", or missing, is `BAJA`. |
| `Text.Strip` | dashboardNoviembre.py:849 | The result is empty iff the text is all whitespace. Otherwise it starts and ends with non-whitespace and is the text minus a whitespace prefix and a whitespace suffix. |
| `Text.StripTrimmed` | dashboardNoviembre.py:1208 | A text that already starts and ends with non-whitespace is unchanged by stripping. |
| `Text.StripLeadingSpace` | dashboardNoviembre.py:849 | One leading blank before a trimmed text is all that stripping removes. |
| `Text.StripIdempotent` | dashboardNoviembre.py:186 | Stripping twice is the same as stripping once. |
| `Text.Lower` | dashboardNoviembre.py:849 | Lower-casing keeps the length and maps each character through the ASCII lower-case map. |
| `Text.FirstWord` | dashboardNoviembre.py:626 | `split()[0]` is the first maximal run of non-whitespace after leading whitespace. An all-whitespace name is kept as it is. |
| `Text.LessIrreflexive` | dashboardNoviembre.py:706 | The string order behind the key sorts is irreflexive. |
| `Text.LessAsymmetric` | dashboardNoviembre.py:706 | The string order is asymmetric. |
| `Text.LessTransitive` | dashboardNoviembre.py:706 | The string order is transitive. |
| `Text.LessTrichotomy` | dashboardNoviembre.py:776 | Any two strings are equal or ordered one way. |
| `Amount.ParseUnsigned` | dashboardNoviembre.py:1173 | An accepted unsigned numeral has no minus sign and at least one digit. |
| `Amount.ParseFloat` | dashboardNoviembre.py:1173-1175 | `float()` accepts only text with at least one digit and no minus sign after the first position. Everything else is NaN. |
| `Amount.ParseFloatPoint` | dashboardNoviembre.py:1173 | An optional "-", digits, ".", digits with at least one digit parses to its signed decimal value. |
| `Amount.ParseFloatSigned` | dashboardNoviembre.py:1173 | A leading "-" negates what the unsigned numeral parses to. |
| `Amount.ParseUnsignedPoint` | dashboardNoviembre.py:1173 | digits "." digits parses to whole + fraction / 10^len(fraction). |
| `Amount.ParseFloatInteger` | dashboardNoviembre.py:1173 | A plain signed digit string parses to its integer value. |
| `Amount.ParseFloatTwoPoints` | dashboardNoviembre.py:1173-1175 | Text with two periods is rejected, giving NaN. |
| `Amount.SolMatch` | dashboardNoviembre.py:1162 | The length of the currency prefix the pattern matches at an "S". It is at least 1, and only its first character is an "S". |
| `Amount.StripSol` | dashboardNoviembre.py:1162 | After the global substitution no "S" is left, no new character is introduced, and text without an "S" is unchanged. |
| `Amount.KeepNumeric` | dashboardNoviembre.py:1163 | Only digits, ",", "." and "-" remain, every such character present before is still present, and numeric-only text is unchanged. |
| `Amount.RemoveChar` | dashboardNoviembre.py:1168 | The character is gone, every other character is kept, and text without it is unchanged. |
| `Amount.RemoveCharAppend` | dashboardNoviembre.py:1168 | Removing a character distributes over concatenation. |
| `Amount.ReplaceChar` | dashboardNoviembre.py:1171 | Same length. Each occurrence of the old character becomes the new one and every other position is kept. |
| `Amount.NormalizeSeparators` | dashboardNoviembre.py:1166-1172 | With a period present, all commas are deleted. Without one, each comma becomes a period. No comma survives either way. |
| `Amount.CleanMonto` | dashboardNoviembre.py:1156-1175 | Empty after the two substitutions gives NaN. Comma and period: commas deleted, then parsed. Only commas: commas become periods, then parsed. No comma: parsed as it is. |
| `Amount.CleanMontoIntended` | dashboardNoviembre.py:1161-1162 | The corrected cleaner agrees with `CleanMonto` on every text without an "S", and is NaN when nothing numeric is left. |
| `Amount.CleanCell` | dashboardNoviembre.py:1158-1175 | A missing cell or a timestamp is NaN, and a text cell goes through the cleaner. A number in plain notation (0, or magnitude in [1e-4, 1e16)) is its own value. A smaller nonzero number is NaN. From 1e16 up the result is present and has the number's sign. |
| `Amount.SciNumeric` | dashboardNoviembre.py:1162-1163 | On the text of a float in exponent notation, the two regex passes drop the `e` and a `+` and keep a `-`. |
| `Amount.SciNegativeExponentNaN` | dashboardNoviembre.py:1160-1175 | A float whose text has a negative exponent cleans to NaN, because its `-` is left after the first position. |
| `Amount.SciPositiveExponent` | dashboardNoviembre.py:1160-1175 | A float whose text has a positive exponent is read with the exponent digits glued onto the mantissa. |
| `Amount.SciPositiveExponentSign` | dashboardNoviembre.py:1160-1175 | That misreading is still a number, and it is positive iff the float is. |
| `Amount.SciExampleWhole` | dashboardNoviembre.py:1160-1175 | "1e+16", the text of 10^16, cleans to 116. |
| `Amount.SciExamplePoint` | dashboardNoviembre.py:1160-1175 | "1.5e+16" cleans to 1.516. |
| `Amount.SciExampleSmall` | dashboardNoviembre.py:1160-1175 | "1e-05" cleans to NaN. |
| `Amount.KeepNumericAppend` | dashboardNoviembre.py:1163 | The character filter works piece by piece: filtering a concatenation concatenates the filtered pieces. |
| `Amount.GroupThousands` | dashboardNoviembre.py:338 | The `{:,}` grouping of a digit string is numeric text with no period, sign or "S", starting with a digit. |
| `Amount.GroupThousandsUngroups` | dashboardNoviembre.py:1166-1168 | Deleting the commas of a grouped digit string gives back the digits. |
| `Amount.Money.Text` | dashboardNoviembre.py:338 | The `{:,.2f}` text of an amount is numeric text with a decimal period and no "S", starting with a digit or a minus sign. |
| `Amount.Money.Ungrouped` | dashboardNoviembre.py:338 | Deleting the grouping commas of the printed amount leaves the sign, the whole digits, "." and the cents. |
| `Amount.CleanMoneyText` | dashboardNoviembre.py:1163-1173 | The cleaner reads a `{:,.2f}` amount without the currency prefix back as its exact value. |
| `Amount.CleanDecimalComma` | dashboardNoviembre.py:1170-1173 | A decimal-comma amount like "12,5" is read as 12.5, with its sign. |
| `Amount.DecimalCommaText` | dashboardNoviembre.py:1163 | A decimal-comma amount survives both substitutions unchanged and has no period. |
| `Amount.DecimalCommaReplaced` | dashboardNoviembre.py:1171 | Replacing its comma turns a decimal-comma amount into the decimal-point numeral. |
| `Amount.StripSolAsWritten` | dashboardNoviembre.py:1162 | The pattern removes only "S/" from "S/. " and leaves ". " in front. |
| `Amount.KeepNumericDotSpace` | dashboardNoviembre.py:1163 | The second pass drops the blank but keeps the stray period. |
| `Amount.NumericAsWritten` | dashboardNoviembre.py:1162-1163 | After both passes, "S/. " + amount becomes "." + amount. |
| `Amount.NormalizeLeadingPoint` | dashboardNoviembre.py:1167-1168 | The comma rule keeps the stray leading period and deletes the commas. |
| `Amount.LeadingPointUnparsed` | dashboardNoviembre.py:1173-1175 | "." followed by a decimal numeral has two periods and is NaN. |
| `Amount.SolPrefixDefeatsCleanMonto` | dashboardNoviembre.py:1156-1175 | Every amount the dashboard prints with the "S/. " prefix cleans to NaN. |
| `Amount.SolPrefixIntended` | dashboardNoviembre.py:1161-1162 | The corrected cleaner reads every "S/. " amount back as its exact value. |
| `Amount.ExampleAmount` | dashboardNoviembre.py:338 | 1234.50 prints as "1,234.50". |
| `Amount.ExampleGrouping` | dashboardNoviembre.py:338 | "1234" is grouped as "1,234". |
| `Amount.SolPrefixExample` | dashboardNoviembre.py:1162 | "S/. 1,234.50" cleans to NaN as written, and to 1234.5 with the corrected pattern. |
| `Dates.SerialOriginIsDecember30th1899` | dashboardNoviembre.py:1150 | The serial origin is the civil date 1899-12-30. |
| `Dates.SerialDay` | dashboardNoviembre.py:1151 | Serial `v` is the origin plus `int(v)` days, truncated toward zero for both signs. |
| `Dates.SerialConsecutive` | dashboardNoviembre.py:1150-1151 | Consecutive whole serials give consecutive days. |
| `Dates.SerialMonotonic` | dashboardNoviembre.py:1150-1151 | A later serial never gives an earlier day. |
| `Dates.SerialExamples` | dashboardNoviembre.py:1150-1151 | Serial 1 is 1899-12-31, 25569 is 1970-01-01, 45962.75 is 2025-11-01, and -0.5 truncates to the origin. |
| `Dates.FirstPresent` | dashboardNoviembre.py:1154 | The index returned has only skipped cells before it and a cell that is not skipped at it, or it is the column's end. Skipped cells are missing cells, empty strings, NaT spellings such as "nan", and "now"/"today". |
| `Dates.FormatOfFirstPresent` | dashboardNoviembre.py:1154 | The column's single format is guessed from its first cell that is not skipped (missing, empty, NaT spelling, "now" or "today"), when that cell is text. It is none when that cell is not text or every cell is skipped. |
| `Dates.Coerce` | dashboardNoviembre.py:1154 | A missing cell, an empty string or a NaT spelling is no date, and a timestamp cell is its own day. |
| `Dates.ParseDateColumn` | dashboardNoviembre.py:1146-1154 | Same length, missing stays missing. In a wholly numeric column whose serials all fit, each number goes through the serial rule. If some serial overflows, every number is read as nanoseconds since 1970. In any other column every cell is read with the one format inferred from the column's first cell that is not skipped. Cells are read on their own only when no format was inferred. |
| `Dates.SerialBounds` | dashboardNoviembre.py:1150-1151 | The smallest fitting serial lands on 1677-09-22, and 106751 days is the most a timedelta of 2^63 - 1 nanoseconds holds. |
| `Dates.NanosDay` | dashboardNoviembre.py:1154 | A number in range is read as nanoseconds since 1970-01-01 and gives the day that instant falls on. |
| `Dates.NanosNearEpoch` | dashboardNoviembre.py:1154 | Any serial below 10^9 in magnitude, read as nanoseconds, is 1970-01-01, or 1969-12-31 when negative. |
| `Dates.SerialColumnExample` | dashboardNoviembre.py:1149-1151 | The column [45962, missing] gives 2025-11-01 and no date. |
| `Dates.OverflowColumnExample` | dashboardNoviembre.py:1148-1154 | In the column [45962, 200000] the second serial overflows, so both dates become 1970-01-01. |
| `Dates.NumericWithBlanks` | dashboardNoviembre.py:1149 | Adding missing cells before or after a column does not change whether it is numeric. |
| `Dates.FitWithBlanks` | dashboardNoviembre.py:1151-1153 | Adding missing cells does not change whether every serial fits. |
| `Dates.TodaySkippedExample` | dashboardNoviembre.py:1154 | In ["today", "05/11/2025", "2025-11-06"] the format comes from "05/11/2025", not "today", so a third cell that does not match it gets no date. |
| `Dates.MixedFormatsExample` | dashboardNoviembre.py:1154 | When "2025-11-05" comes first and fixes the format `%Y-%m-%d`, a later "05/11/2025" that does not match that format gets no date. |
| `Dates.FormatWithBlanks` | dashboardNoviembre.py:1154 | Adding missing cells before or after a column does not change its inferred format. |
| `Dates.SameBranchSameDate` | dashboardNoviembre.py:1146-1154 | Equal cells get equal dates in two columns that take the same branch. On the text path the two columns must also infer the same format. |
| `Dates.BlanksAfter` | dashboardNoviembre.py:1146-1154 | Missing cells appended to a column leave every original cell's date unchanged. |
| `Dates.BlanksBefore` | dashboardNoviembre.py:1146-1154 | Missing cells prepended to a column leave every original cell's date unchanged. |
| `Numbers.Pct` | dashboardNoviembre.py:317-333 | With a positive denominator the percentage times the denominator is 100 times the numerator. Otherwise it is 0. |
| `Numbers.PctBounds` | dashboardNoviembre.py:329-333 | A part of a whole is between 0 and 100 percent, and 100 exactly when it is the whole. |
| `Numbers.PctAdd` | dashboardNoviembre.py:875 | Percentages of one denominator add like their numerators. |
| `Numbers.Trunc` | dashboardNoviembre.py:1151 | `int()` truncates toward zero: within one below the value for positives and within one above it for negatives. |
| `Numbers.RoundHalfEven` | dashboardNoviembre.py:708 | `round()` is within one half of the value, and an exact half goes to the even neighbour. |
| `Numbers.RoundHalfEvenUnique` | dashboardNoviembre.py:708 | Any integer with those two properties is the rounded value. |
| `Ordering.AscendingDistinct` | dashboardNoviembre.py:307 | Strictly ascending keys are distinct. |
| `Ordering.Insert` | dashboardNoviembre.py:307 | Inserting a key keeps the list strictly ascending and adds exactly that key. |
| `Ordering.SortedDistinct` | dashboardNoviembre.py:65 | `sorted(unique())`: strictly ascending with exactly the input's elements. |
| `Ordering.Reverse` | dashboardNoviembre.py:706 | The reversal holds the same elements in mirrored positions. |
| `Ordering.ReverseAscending` | dashboardNoviembre.py:706 | Reversing an ascending key list gives a descending one with the same keys. |
| `Ordering.InsertDay` | dashboardNoviembre.py:125 | Inserting a day keeps the day list strictly ascending and adds exactly that day. |
| `Ordering.SortedDistinctDays` | dashboardNoviembre.py:125 | The grouped days are strictly ascending with exactly the input's days. |
| `Grouping.CountManaged` | dashboardNoviembre.py:313 | At most the group size, and equal to it iff every account of the group is managed. |
| `Grouping.SumRowsIsCount` | dashboardNoviembre.py:308-313 | Summing the per-account counters gives the number of accounts and the number managed. |
| `Grouping.SumAppend` | dashboardNoviembre.py:225-228 | Column sums add over concatenated record lists. |
| `Grouping.LevelKeyOf` | dashboardNoviembre.py:869 | The risk-level key of an account is the label of its classification and is never missing. |
| `Grouping.Group` | dashboardNoviembre.py:307-314 | A group holds exactly the accounts whose key is that value. |
| `Grouping.GroupMultiplicity` | dashboardNoviembre.py:307-314 | A group holds each account with its key as many times as the table does, and no other account. |
| `Grouping.Keyed` | dashboardNoviembre.py:307 | The rows `groupby` keeps are exactly the accounts whose key is present. |
| `Grouping.Unkeyed` | dashboardNoviembre.py:307 | The dropped rows are exactly the accounts whose key is missing. |
| `Grouping.KeyedMultiplicity` | dashboardNoviembre.py:307 | The kept rows hold each keyed account as many times as the table does, and no other account. |
| `Grouping.UnkeyedMultiplicity` | dashboardNoviembre.py:307 | The dropped rows hold each unkeyed account as many times as the table does, and no other account. |
| `Grouping.KeyedUnkeyedPartition` | dashboardNoviembre.py:307 | The kept and dropped rows together are the table, as a multiset. |
| `Grouping.SumSplit` | dashboardNoviembre.py:349-352 | A whole-table sum is the sum over kept rows plus the sum over dropped rows. |
| `Grouping.GroupNonEmpty` | dashboardNoviembre.py:307 | A group is non-empty iff some account has that key. |
| `Grouping.NothingUnkeyed` | dashboardNoviembre.py:869 | When every account has a key, the dropped rows add nothing. |
| `Grouping.AllKeyed` | dashboardNoviembre.py:869 | When every account has a key, `groupby` keeps every row. |
| `Grouping.KeysOf` | dashboardNoviembre.py:307 | The keys listed are exactly the keys some account has. |
| `Grouping.GroupKeys` | dashboardNoviembre.py:307 | The group keys are sorted ascending and distinct, are exactly the present keys, and each has a non-empty group. |
| `Grouping.Partition` | dashboardNoviembre.py:348 | Over any distinct key list covering the present keys, the groups' sums add up to the kept rows' sum. |
| `Grouping.GroupsPartitionKeyed` | dashboardNoviembre.py:348-353 | The groups' sums add up to the sum over the rows `groupby` keeps. |
| `Summary.Aggregate` | dashboardNoviembre.py:307-314 | A group's row counts its accounts and managed accounts, and holds the column sums of the group. |
| `Summary.GroupTotals` | dashboardNoviembre.py:307-314 | One aggregate per key, in key order, each over that key's group. |
| `Summary.AccountsColumn` | dashboardNoviembre.py:348 | The account-count column adds up as its real-valued column sum. |
| `Summary.ManagedColumn` | dashboardNoviembre.py:353 | The managed-count column adds up as its real-valued column sum. |
| `Summary.ManagedBelowAccounts` | dashboardNoviembre.py:353-356 | Summed managed counts never exceed summed account counts. |
| `Summary.GroupColumns` | dashboardNoviembre.py:348-353 | A summary column adds up to the sum over the rows `groupby` keeps. |
| `Summary.GroupColumnsAndDropped` | dashboardNoviembre.py:349-352 | A whole-table sum is the summary column plus what the accounts without a key hold. |
| `CampaignTable.MakeRow` | dashboardNoviembre.py:317-333 | A campaign row keeps its key and totals, and its three percentages are ratio×100 with a zero guard. |
| `CampaignTable.TotalRow` | dashboardNoviembre.py:346-357 | The total row is keyed "TOTAL" and its percentages are zero-guarded ratios. |
| `CampaignTable.Body` | dashboardNoviembre.py:307-333 | One row per present campaign, strictly ascending, each counting its non-empty group, with managed at most accounts. |
| `CampaignTable.Table` | dashboardNoviembre.py:374-383 | The table is the campaign rows followed by exactly one row, `TOTAL`, last. |
| `CampaignTable.TotalCounts` | dashboardNoviembre.py:348-353 | The total's account and managed counts equal those of the accounts that have a campaign. |
| `CampaignTable.TotalMoney` | dashboardNoviembre.py:349-352 | The total's money equals the campaign rows' column plus the money of accounts without a campaign. |
| `CampaignTable.TotalMoneyAllCampaigns` | dashboardNoviembre.py:349-352 | When every account has a campaign, the total's money is the column sum of the campaign rows. |
| `CampaignTable.DebtWithoutCampaign` | dashboardNoviembre.py:351 | A lone account without a campaign has no campaign row, yet its debt appears in the total. |
| `CampaignTable.TotalSweep` | dashboardNoviembre.py:356 | The total sweep percentage is within 0..100, and is 100 iff every account with a campaign is managed. |
| `RoundedTable.WholePercent` | dashboardNoviembre.py:694-695 | `%Gestion` is within one half of the exact percentage, and 0 when there are no accounts. |
| `RoundedTable.ManagedPercent` | dashboardNoviembre.py:695 | The managed percentage is between 0 and 100, and 100 when all accounts are managed. |
| `RoundedTable.MakeRow` | dashboardNoviembre.py:686-708 | Counts are copied exactly, and each money field is within one half of the exact sum. |
| `RoundedTable.AscendingRows` | dashboardNoviembre.py:686-695 | One rounded row per present key in key order, counting its non-empty group and its managed accounts. |
| `RoundedTable.DescendingRows` | dashboardNoviembre.py:706 | The same rows in strictly descending key order, each still matching its own group. |
| `RoundedTable.ReversedColumnExact` | dashboardNoviembre.py:781-782 | Re-summing integer counts from the descending rows gives the exact group column. |
| `RoundedTable.ReversedColumnRounded` | dashboardNoviembre.py:783-786 | Re-summing rounded money from the descending rows is within n/2 of the exact group column. |
| `RoundedTable.DescendingMatches` | dashboardNoviembre.py:706-708 | Each descending row's counts equal its group's counts, and its money is within one half of it. |
| `RoundedTable.CountsPartition` | dashboardNoviembre.py:781-782 | The descending rows' counts add up to the accounts `groupby` keeps and their managed count. |
| `RoundedTable.MoneyPartition` | dashboardNoviembre.py:783-786 | The descending rows' rounded money adds up to within n/2 of the kept accounts' money. |
| `AdvisorTable.Table` | dashboardNoviembre.py:686-708 | Rows are strictly descending by advisor, each counting a non-empty group, with a managed percentage in 0..100. |
| `AdvisorTable.TableAdvisors` | dashboardNoviembre.py:686 | An advisor has a row iff some account names that advisor. |
| `AdvisorTable.TablePartition` | dashboardNoviembre.py:686-708 | The rows' counts add up to the accounts that have an advisor, and rounded money to within n/2 of their money. |
| `AdvisorTable.FirstNames` | dashboardNoviembre.py:626-630 | One row per first name, ascending, holding the planillas and gastos sums of that first name's accounts. |
| `AdvisorTable.FirstNamesCoverTable` | dashboardNoviembre.py:626-630 | The first-name recoveries add up to the whole table's recoveries, because no account lacks a first name. |
| `AdvisorTable.FirstNameColumn` | dashboardNoviembre.py:627-630 | Any first-name summary column adds up to the whole table's column. |
| `AdvisorTable.FirstNamesKeyed` | dashboardNoviembre.py:626 | Every account has a first-name key, including one with no advisor, which renders as "nan". |
| `PriorityTable.Filter` | dashboardNoviembre.py:739-744 | The selection is exactly the accounts of the chosen campaign (any for `TOTAL`) and advisor (any for `TODOS`). |
| `PriorityTable.FilterMultiplicity` | dashboardNoviembre.py:739-744 | The selection holds each selected account as many times as the table does, and no other account. |
| `PriorityTable.FilterAll` | dashboardNoviembre.py:739-740 | Choosing `TOTAL` and `TODOS` selects every account, in order. |
| `PriorityTable.GroupRow` | dashboardNoviembre.py:759-762 | A priority row's two recovery percentages are zero-guarded ratios of the group's exact sums. |
| `PriorityTable.Counted` | dashboardNoviembre.py:781-786 | When some row is keyed "TOTAL", the last row is left out of the re-summed totals. Otherwise every row is counted. |
| `PriorityTable.TotalRow` | dashboardNoviembre.py:781-801 | The `TOTAL` row re-sums the counted rounded rows field by field. Its percentages are taken from those re-summed integers. |
| `PriorityTable.Body` | dashboardNoviembre.py:747-778 | One row per present priority, strictly descending, each counting its non-empty group, with the recovery percentages of its group. |
| `PriorityTable.Table` | dashboardNoviembre.py:803 | The table is the priority rows followed by exactly one `TOTAL` row, last. |
| `PriorityTable.TotalRowCounts` | dashboardNoviembre.py:781-786 | When no priority is the text "TOTAL", the total counts are the selection's keyed accounts, and its money is within n/2 of their money. |
| `PriorityTable.TotalManagedPercent` | dashboardNoviembre.py:787 | The total managed percentage is within 0..100. |
| `PriorityTable.ShownManagedBelow` | dashboardNoviembre.py:781-782 | Re-summed managed counts never exceed re-summed account counts. |
| `PriorityTable.TotalKeyDropsLastRow` | dashboardNoviembre.py:781 | With a priority group literally named "TOTAL", the last group row is silently left out of the total. |
| `LevelSummary.OrderComplete` | dashboardNoviembre.py:878 | The fixed order lists every level. |
| `LevelSummary.Filled` | dashboardNoviembre.py:869 | The filled levels are exactly those with at least one account. |
| `LevelSummary.Present` | dashboardNoviembre.py:878-880 | Picking levels out of a ranked list keeps them ranked and keeps exactly the picked ones. |
| `LevelSummary.Levels` | dashboardNoviembre.py:869-880 | The summary's levels are in the fixed `+ALTA, ALTA, MEDIA, BAJA` order and are exactly the non-empty ones. |
| `LevelSummary.Names` | dashboardNoviembre.py:878 | Each level is shown by its label. |
| `LevelSummary.Table` | dashboardNoviembre.py:869-875 | Each row counts its level's accounts and sums their debt and planillas recovery. Its share is the count over the column total, as a percentage. |
| `LevelSummary.TableRanked` | dashboardNoviembre.py:878-880 | Rows are strictly in the fixed level order and none is empty. |
| `LevelSummary.Groups` | dashboardNoviembre.py:869-873 | One aggregate per present level. |
| `LevelSummary.LevelGroup` | dashboardNoviembre.py:869 | A level has accounts iff some account classifies to it. |
| `LevelSummary.PresentLevels` | dashboardNoviembre.py:869-880 | A level appears in the summary iff some account classifies to it. |
| `LevelSummary.CountsCoverTable` | dashboardNoviembre.py:874 | The level counts add up to the number of accounts. |
| `LevelSummary.SharesAdd` | dashboardNoviembre.py:875 | Shares of one total add like their counts. |
| `LevelSummary.SharesCoverTable` | dashboardNoviembre.py:874-875 | The counts add up to every account, and the shares of a non-empty table add up to 100. |
| `Kpis.Compute` | dashboardNoviembre.py:224-233 | Accounts is the row count and swept is at most that. The sweep percentage is within 0..100, 0 for an empty sheet, and 100 iff every account is managed. |
| `Kpis.AgreesWithCampaignTotal` | dashboardNoviembre.py:224-233 | The KPI money equals the campaign table's `TOTAL` money. When every account has a campaign, its counts and sweep percentage agree too. |
| `Ledger.Raw` | dashboardNoviembre.py:1179-1203 | The fresh rows: planillas events (one per account) first, then gastos events, each side only when the sheet has its columns. |
| `Ledger.Parts` | dashboardNoviembre.py:541-546 | A side whose columns are missing contributes the pie-chart table its name still holds (`'df_planillas' in locals()` is always true). Those rows have no date, amount, campaign or company. |
| `Ledger.Pagos` | dashboardNoviembre.py:1178-1212 | The page fails iff the sheet has rows, neither side's columns, and a leftover chart table with rows. Otherwise the ledger equals `Build`'s, so the leftover rows change nothing. |
| `Ledger.PartsDropStale` | dashboardNoviembre.py:1197-1212 | With at least one side present, cleaning and keeping the parts gives `Build`'s ledger. |
| `Ledger.StaleNotKept` | dashboardNoviembre.py:1206-1212 | A leftover chart row cleans to an event with no date and no amount. |
| `Ledger.StaleAfter` | dashboardNoviembre.py:1201-1212 | Leftover rows after the fresh rows change nothing that is kept. |
| `Ledger.StaleBefore` | dashboardNoviembre.py:1199-1212 | Leftover rows before the fresh rows change nothing that is kept. |
| `Ledger.CleanBeforeStale` | dashboardNoviembre.py:1206-1210 | Cleaning with leftover rows after a frame cleans that frame's rows alike. |
| `Ledger.CleanAfterStale` | dashboardNoviembre.py:1206-1210 | Cleaning with leftover rows before a frame cleans that frame's rows alike. |
| `Ledger.Clean` | dashboardNoviembre.py:1206-1210 | Each event keeps its kind and cleans its amount. Campaign and company default to "Sin campaña"/"Desconocido" and are stripped. The date comes from the whole date column. |
| `Ledger.Keep` | dashboardNoviembre.py:1211-1212 | Exactly the events with a positive amount or a date are kept. |
| `Ledger.KeepMultiplicity` | dashboardNoviembre.py:1212 | Each kept event appears as often as in the cleaned frame, and no other event appears. |
| `Ledger.KeepAppend` | dashboardNoviembre.py:1212 | The row filter works piece by piece over a concatenation. |
| `Ledger.NoneKept` | dashboardNoviembre.py:1212 | A frame none of whose events qualifies keeps nothing. |
| `Ledger.KeepPrefixOnly` | dashboardNoviembre.py:1212 | Unqualified events after the first n leave what is kept unchanged. |
| `Ledger.KeepSuffixOnly` | dashboardNoviembre.py:1212 | Unqualified events before the rest leave what is kept unchanged. |
| `Ledger.Build` | dashboardNoviembre.py:1179-1212 | From the fresh rows, the ledger is exactly the kept cleaned events, all of the present kinds only. |
| `Ledger.BuildMultiplicity` | dashboardNoviembre.py:1197-1212 | The ledger holds each kept cleaned event as often as the cleaned fresh rows do. |
| `Ledger.KeepPlanillasFirst` | dashboardNoviembre.py:1212 | Keeping events preserves "planillas before gastos". |
| `Ledger.BuildPlanillasFirst` | dashboardNoviembre.py:1197-1212 | In the built ledger no gastos event precedes a planillas event. |
| `Ledger.UndatedPaymentKept` | dashboardNoviembre.py:1211-1212 | An undated planillas payment of 150 is kept, with the default campaign. |
| `Ledger.DefaultsStripped` | dashboardNoviembre.py:1207-1208 | The default campaign and a trimmed company name are unchanged by stripping. |
| `Ledger.DefaultCampaignStripped` | dashboardNoviembre.py:1208 | "Sin campaña" is unchanged by stripping. |
| `Ledger.SingleAccountEvent` | dashboardNoviembre.py:1180-1210 | One account's planillas event is its parsed date, cleaned amount, defaulted and stripped campaign and company. |
| `Ledger.CompanyRecleaned` | dashboardNoviembre.py:186 | Re-stripping the company names of the ledger changes none of them. |
| `Ledger.UnpaidUndatedDropped` | dashboardNoviembre.py:1212 | An event with no date and no positive amount is never kept. |
| `History.DateRange` | dashboardNoviembre.py:75-81 | There is no range iff no event has a date. Otherwise the range is the two chosen days, ordered. |
| `History.Filter` | dashboardNoviembre.py:84-95 | The filtered events are exactly the ledger events matching campaign, kind and inclusive range. |
| `History.FilterMultiplicity` | dashboardNoviembre.py:84-95 | Each matching event is kept as often as it occurs, and others not at all. |
| `History.FilterAll` | dashboardNoviembre.py:84-88 | "Todas", "Todos" and no range give back the ledger unchanged. |
| `History.UndatedHidden` | dashboardNoviembre.py:89-95 | Once any event has a date, undated events never pass the date filter. |
| `History.InsertByDate` | dashboardNoviembre.py:98-99 | Inserting into a latest-first list keeps it latest-first and adds exactly one copy of the event. |
| `History.SortByDate` | dashboardNoviembre.py:98-99 | The sorted events are a permutation of the input, latest first, undated last. |
| `History.SortSorted` | dashboardNoviembre.py:99 | An already latest-first list is left as it is. |
| `History.SortIdempotent` | dashboardNoviembre.py:99 | Sorting twice is sorting once. |
| `History.KindCount` | dashboardNoviembre.py:110-112 | A kind's count is at most the number of events. |
| `History.ComputeMetrics` | dashboardNoviembre.py:102-112 | The payment count is the two kinds' counts together, and the two amounts add up to everything paid. |
| `History.KindsCover` | dashboardNoviembre.py:104-112 | Planillas and gastos counts and amounts add up to the totals. |
| `History.InsertKeepsSums` | dashboardNoviembre.py:98-112 | Inserting by date changes no kind's amount or count. |
| `History.SortKeepsMetrics` | dashboardNoviembre.py:98-112 | The metrics of the sorted events equal those of the unsorted ones. |
| `History.SortKeepsSums` | dashboardNoviembre.py:98-112 | Sorting changes no kind's amount or count. |
| `History.Days` | dashboardNoviembre.py:123-124 | The days listed are exactly those some dated event of the kind falls on. |
| `History.DailyOver` | dashboardNoviembre.py:125 | One point per day, holding the kind's amount paid that day. |
| `History.Daily` | dashboardNoviembre.py:121-125 | The per-day points are strictly ascending by day, each holding that day's amount. |
| `History.DailyDays` | dashboardNoviembre.py:123-125 | A day has a point iff some dated event of the kind falls on it. |
| `History.DailyPartition` | dashboardNoviembre.py:125 | Over ascending distinct days covering every dated event, the per-day amounts add up to the dated amount. |
| `History.DailyCoversDated` | dashboardNoviembre.py:123-125 | The per-day amounts add up to the amount of the kind's dated events. |
| `History.AllDatedAmount` | dashboardNoviembre.py:123 | When every event is dated, the dated amount is the kind's whole amount. |
| `History.PrefixTotal` | dashboardNoviembre.py:133 | A prefix sum plus the rest's total is the whole total. |
| `History.Cumulative` | dashboardNoviembre.py:133 | The running total has one point per day. Point i is the sum of the first i+1 days, consecutive points differ by that day's amount, and the last is the total. It never falls when amounts are non-negative. |
| `History.PrefixGrows` | dashboardNoviembre.py:133 | With non-negative amounts every longer prefix sum is at least as large. |
| `History.PrefixMonotone` | dashboardNoviembre.py:133 | With non-negative amounts prefix sums grow with their length. |

## Left out

- The Streamlit page is not modelled: widgets, HTML/CSS strings, `st.*` rendering, the percent colour helpers, and every chart (matplotlib pies and bars, Altair, colour palettes). They only display the modelled tables.
- The comparison tab concatenates the two daily series for one chart; it computes nothing beyond `History.Daily`.
- Loading the spreadsheet, the existence checks and the openpyxl export are I/O.
- The date widgets' clamping to the data's min and max is UI state, so `History.DateRange` takes the two chosen days as parameters.
- The select-box option lists (`["Todas"] + sorted(...)`, `['TOTAL'] + unique()`) are UI state. Their sort step is `Ordering.SortedDistinct`.
- The text branch of `_parse_fecha_serie` (`pd.to_datetime(..., dayfirst=True)`) calls library routines. Format guessing, reading with a format and reading one cell alone are parameters, so no particular string is promised to parse to a particular day.
- Dates.ParseDateColumn: in the nanosecond fallback, what pandas gives for a number beyond the 64-bit nanosecond range, and how it rounds floats near that bound, is not promised. Those are binary floating-point details, and no serial of a real sheet comes near 9.2 * 10^18. An infinite serial is not modelled either, because cells hold exact reals.
- Amount.CleanCell: from 1e16 up the model returns the number itself and promises only that the result is present and keeps its sign. Python writes such a float with an exponent, which the cleaner reads as other digits (10^16 as 116, by `Amount.SciExampleWhole`). Which digits `str()` prints is a binary floating-point detail. The keep rule looks only at the sign, so the ledger keeps the same events.
- Ledger.Pagos: the row counts of the leftover pie-chart tables are parameters. They are not computed from the campaign table.
- Printed numbers (`{:,.2f}`, `{:.1f}%`) are not modelled beyond the grouped amount text `Amount.Money` needs for the cleaner's round trip.
- Binary floating point is not modelled: amounts are exact reals and `round()` is round-half-to-even on reals.
- Text or timestamp cells inside REC. PLANILLAS / REC. GASTOS contribute 0 to the modelled sums. pandas would refuse to sum such a column, and the model does not reproduce that failure.
- Accounts with equal keys keep no particular order after `sort_values`, whose sort is not stable. The model states permutation and ordering, not a tie order. `History.SortByDate` inserts ties in a fixed way, and the contracts state only what holds for any tie order.
- The first-name table's sort by recovered amount (`tabla_asesor_planillas/gastos`) only orders the chart's bars.
- A PRIORIDAD column read as numbers would sort numerically. The model keeps priorities as the text `astype(str)` renders and sorts them as text.
- `Text.Lower` lower-cases ASCII letters only. Python's full lower-casing maps no non-ASCII character onto a letter of "contacto directo", so the critical rule decides the same either way.
- The recent-payments detail table only displays the unfiltered ledger. Its company re-strip is `Ledger.CompanyRecleaned`.

## Findings

| source | as written | input that shows it | evidently intended | confidence | as-written member | corrected member |
|---|---|---|---|---|---|---|
| dashboardNoviembre.py:1162 | The pattern `S\.?/?\s*` expects the period before the slash, so in "S/. 1,234.50" it removes only "S/". The stray "." survives the second pass, the comma rule yields ".1234.50", and `float()` rejects it: NaN. | "S/. 1,234.50", the amount format the dashboard itself prints | Strip the whole "S/." prefix (pattern `S/?\.?\s*`), so the amount reads back as 1234.50 | not executed | `Amount.SolPrefixDefeatsCleanMonto` | `Amount.SolPrefixIntended` |

The ledger keeps the as-written `Amount.CleanMonto`, because that is what
the dashboard shows. `Amount.SolPrefixExample` works the finding through
on the concrete input.

# SkillMap India: a verified model of the dashboard's data transforms

SkillMap India is a Streamlit dashboard over a table of Indian job postings
(job category, location, employment type, company, industry, skills). Below
its charts sits a small set of deterministic transforms, and this project
models them in Dafny and proves their properties:

- **Row cleaning** (`preprocess_data`): drop the rows that miss a job
  category or a location; rename three location spellings onto the map's
  state names; lower-case the employment type; turn the count columns into
  integers. The drop happens in place on the caller's frame. The remaining
  steps land on a new frame, which is returned. A missing "Job Category",
  "Location" or "Employment Type" column raises a `KeyError`, which is
  caught and gives an empty frame. A missing count column is skipped.
  This is the class `Preprocess.JobFrame`.
- **Skill parsing** (`preprocess_skills`): a missing cell gives `[]`. A
  list literal is stripped and lower-cased element by element. A
  `ValueError` from `ast.literal_eval` falls back to splitting on commas. A
  literal that is not a list gives `[]`. A `SyntaxError` (for example from
  `C++, Java`) escapes, as do a `TypeError` (an unhashable dictionary key)
  and the `AttributeError` raised by a list element without a `strip`
  method. `ast.literal_eval` itself is an oracle parameter.
- **Per-state aggregation** (`merge_location_data`): rows are counted per
  location and left-joined onto the reference list of 36 states, with zero
  for a state that has no rows. "Remote" is left out. The same join is
  written inline on the regional page, once per employment type.
- **Palette selection** (`adjust_color_intensity`): the first
  `intensity + 1` colours of a named seven-colour scheme. An unknown name is
  a `KeyError`.
- **Filters and rankings**: the "any selected skill" row filter, the
  category, industry and employment-type selections, and the top-20
  company ranking (`value_counts().head(20)`).

Modules: `Wrappers` (Option, Result), `Seqs` (row selection as an
order-keeping filter), `Text` (Python's `strip`, `lower`, `split`),
`Skills`, `JobRecords` (the row), `States` (reference list and renaming),
`Preprocess`, `LocationCounts`, `Palette`, `Views`, `Ranking`.

A data frame is a sequence of `Row` values, and a pandas missing value is
`None`. Most of the core is pure, so it is written as functions with
lemmas. `preprocess_data` changes its argument in place, so it is a method
of a class whose `rows` field the methods reassign.

The dashboard generally catches errors and shows them as a message. Skill
parsing is the exception: `preprocess_skills` catches only `ValueError`,
and its caller (Streamlit_app.py:92) catches nothing. The model keeps that
behaviour and returns the escaping exception as an `Err`.

## Model

| member | source | states |
|---|---|---|
| `Skills.PreprocessSkills` | Streamlit_app.py:39-48 | A missing cell gives `[]`. A literal that is not a list gives `[]`. Every exception other than `ValueError` (such as `SyntaxError`) escapes unchanged. No `ValueError` ever escapes. |
| `Skills.CleanItems` | Streamlit_app.py:44-45 | Succeeds exactly when every list element is a string. It then gives one stripped, lower-cased skill per element, in order. Otherwise the result is `AttributeError` (bytes elements included, see Left out). |
| `Skills.CleanAll` | Streamlit_app.py:47 | The fallback gives one skill per piece, and every skill has no surrounding whitespace and no upper-case letter. |
| `Skills.ListLiteralParsed` | Streamlit_app.py:43-45 | For a cell that evaluates to a list: success exactly when all elements are strings, one normalised skill per element in order, and `AttributeError` otherwise (bytes elements included, see Left out). |
| `Skills.CommaFallback` | Streamlit_app.py:46-47 | After a `ValueError`: one skill per comma-separated piece, one more than the number of commas, each the piece stripped and lower-cased. The pieces rejoined with commas give back the cell. |
| `Skills.SkillsAreNormal` | Streamlit_app.py:45-47 | Every returned skill has no surrounding whitespace and no upper-case letter. Stripping and lower-casing it again changes nothing. |
| `Skills.FallbackReparse` | Streamlit_app.py:46-47 | A parsed skill list, written out comma-separated and parsed again through the fallback, gives the same list (when no skill contains a comma). |
| `Text.Strip` | Streamlit_app.py:45 | `str.strip()`: the result has no whitespace at either end, it is a contiguous part of the input, and everything cut off is whitespace. |
| `Text.StripIdempotent` | Streamlit_app.py:45 | Stripping twice is stripping once. |
| `Text.Lower` | Streamlit_app.py:30 | `str.lower()` keeps the length and leaves no upper-case letter. Only ASCII upper-case letters change, each to its lower-case partner. |
| `Text.CleanIsNormal` | Streamlit_app.py:45-47 | `strip().lower()` yields a string with no whitespace at its ends and no upper-case letter, and is idempotent. |
| `Text.JoinSplit` | Streamlit_app.py:47 | `sep.join(s.split(sep)) == s`. |
| `Text.Split` | Streamlit_app.py:47 | `s.split(sep)` gives at least one piece, and no piece contains the separator. |
| `Text.SplitJoin` | Streamlit_app.py:47 | Splitting a join of separator-free pieces gives back the pieces. |
| `Text.SplitLength` | Streamlit_app.py:47 | `s.split(sep)` has one more piece than `s` has separators. |
| `States.NormalizeLocation` | Streamlit_app.py:25-29 | Maps 'Jammu & Kashmir', 'Odisha' and 'Uttarakhand' to 'Jammu and Kashmir', 'Orissa' and 'Uttaranchal'. Every other location is unchanged. Each alias lands on a reference state, and no result is an alias. |
| `States.NormalizeIdempotent` | Streamlit_app.py:25-29 | Renaming is idempotent. |
| `States.ReferenceStatesNormal` | Streamlit_app.py:95-103 | The reference list has no "Remote" and no alias spelling, so renaming leaves every reference state as it is. |
| `States.ReferenceStatesApart` | Streamlit_app.py:95-103 | The reference list has no repeated state. |
| `Seqs.Filter` | Streamlit_app.py:157 | A boolean-mask selection keeps exactly the rows that satisfy the mask and never adds rows. |
| `Seqs.FilterIsSubsequence` | Streamlit_app.py:23 | A selection keeps the relative order of the rows it keeps. |
| `Seqs.FilterLength` | Streamlit_app.py:146 | The size of a selection is the number of rows that satisfy its mask. |
| `Seqs.FilterIdempotent` | Streamlit_app.py:23 | Selecting again with the same mask changes nothing. |
| `Preprocess.JobFrame.DropIncomplete` | Streamlit_app.py:23 | In-place `dropna`: the frame's rows become the complete rows of the old rows, in order. |
| `Preprocess.JobFrame.CoerceNumericColumn` | Streamlit_app.py:33 | In place, every row gets the named count column converted to an integer, and nothing else changes. |
| `Preprocess.JobFrame.PreprocessData` | Streamlit_app.py:21-37 | The caller's frame keeps its columns. It loses its incomplete rows unless a key column is missing. The returned frame is fresh: the cleaned complete rows when all needed columns exist, and empty with no columns otherwise. |
| `Preprocess.LowerEmploymentType` | Streamlit_app.py:30 | The employment type lower-cased character by character, so the same length and with no upper-case letter. A missing value becomes "nan". |
| `Preprocess.Relabel` | Streamlit_app.py:25-30 | A present location stays present and is no alias spelling. The employment type becomes the lower-casing of the old one (or "nan"). Every other field is kept. |
| `Preprocess.CoerceFirst` | Streamlit_app.py:31-33 | The numeric-column loop; its contract is `Preprocess.CoerceFirstFields`. |
| `Preprocess.Coerce` | Streamlit_app.py:33 | One count cell as an integer, 0 for a blank or unparsable cell; used through `Preprocess.CoerceFirstFields`. |
| `Preprocess.CleanRow` | Streamlit_app.py:25-33 | One kept row after every step. Its contract is `Preprocess.CleanRowIsClean` and `Preprocess.CleanRowIdempotent`. |
| `Preprocess.Preprocessed` | Streamlit_app.py:23-33 | The rows of the cleaned frame; its contract is `Preprocess.PreprocessedProperties` and `Preprocess.PreprocessIdempotent`. |
| `Preprocess.CoerceFirstFields` | Streamlit_app.py:31-33 | The numeric-column loop changes only the "Job Count" and "Skill Count" cells, and only for the columns the table has. |
| `Preprocess.CleanRowIsClean` | Streamlit_app.py:25-33 | A cleaned complete row keeps both key fields. Its location is the renamed old location. Its employment type is the old one lower-cased. Its count columns hold integers, and its other fields are unchanged. |
| `Preprocess.PreprocessedProperties` | Streamlit_app.py:23-30 | After cleaning, no row misses a category or a location. The rows are the complete input rows, one for one and in order. Each has its location renamed and its employment type lower-cased, and its record fields unchanged. |
| `Preprocess.CleanRowIdempotent` | Streamlit_app.py:25-33 | Cleaning a clean row changes nothing. |
| `Preprocess.PreprocessIdempotent` | Streamlit_app.py:21-34 | Cleaning the cleaned rows gives the same rows. |
| `Preprocess.ParseSkillsColumn` | Streamlit_app.py:92 | Applying skill parsing to the column succeeds exactly when every cell parses. It then replaces each cell with its skill list and keeps everything else. Otherwise the error is the one raised by the first cell, in row order, that fails. |
| `LocationCounts.CountAt` | Streamlit_app.py:51 | A location's count is at most the number of rows. It is zero exactly when no row is at that location. |
| `LocationCounts.CountAtIsCountWhere` | Streamlit_app.py:51 | A location's count is the general row count with that location's mask. |
| `LocationCounts.MergeLocationData` | Streamlit_app.py:50-55 | One entry per non-Remote reference state, in reference order. Each count is the number of rows at that state. |
| `LocationCounts.CountIn` | Streamlit_app.py:51-55 | The number of rows located at one of the places is at most the number of rows, with equality exactly when every row is at one of them. |
| `LocationCounts.MergeTotal` | Streamlit_app.py:51-55 | Over distinct states, the counts sum to the number of rows at a non-Remote reference state. |
| `LocationCounts.TotalBound` | Streamlit_app.py:51-55 | The counts sum to at most the number of rows. They are equal exactly when every row is at a non-Remote reference state. |
| `LocationCounts.ReferenceTotalBound` | Streamlit_app.py:50-55 | Over the dashboard's reference list, the counts sum to at most the number of rows, with equality exactly when every row is at a reference state. |
| `LocationCounts.MergeKeepsEveryState` | Streamlit_app.py:50-55 | When no state is "Remote", the merge has one entry per state, in order, each with its number of rows. |
| `LocationCounts.MergeOverReference` | Streamlit_app.py:95-104 | Over the dashboard's list, the table has exactly one entry per reference state, in order. Each count is the rows at that state, and it is zero exactly when there are none. |
| `LocationCounts.CountAtFilter` | Streamlit_app.py:145-148 | A selection has at most as many rows at a location as the whole table, and exactly as many when every row there is selected. |
| `LocationCounts.CountAtFilterMonotone` | Streamlit_app.py:157-158 | A narrower mask never gives a larger count at a location. |
| `Palette.SliceTo` | Streamlit_app.py:70 | Python's `s[:stop]` is a prefix of `s` of exactly `stop` elements, all of `s` when `stop` is past the end, all but the last `-stop` for a negative `stop`, and empty below `-|s|`. |
| `Palette.AdjustColorIntensity` | Streamlit_app.py:57-70 | An unknown scheme name, and only that, gives `KeyError(name)`. Otherwise the result is a prefix of the named scheme. |
| `Palette.SchemesHaveSevenColours` | Streamlit_app.py:58-69 | Every scheme has seven colours. |
| `Palette.IntensityPrefix` | Streamlit_app.py:70 | For intensity `i >= 0` the result is the first `min(i + 1, 7)` colours of the scheme, and it is never empty. |
| `Palette.IntensityMonotone` | Streamlit_app.py:70 | A lower intensity's colours are a prefix of a higher one's. |
| `Palette.SidebarChoicesSucceed` | Streamlit_app.py:131-136 | Every scheme the sidebar offers and every slider position give one to seven colours, never a `KeyError`. |
| `Views.JobDistributionTotals` | Streamlit_app.py:145-148 | The reported total is the number of rows of the category. The per-state counts sum to at most that total, and equal it exactly when every such row is at a non-Remote reference state. |
| `Views.JobDistribution` | Streamlit_app.py:145-148 | The reported total is the number of rows of the category. The table has one entry per non-Remote reference state, in order, each counting the category's rows at that state. |
| `Views.JobDistributionReferenceTotals` | Streamlit_app.py:145-148 | Over the dashboard's reference list, the per-state counts sum to at most the reported total, and equal it exactly when every row of the category is at a reference state. |
| `Views.SkillDistribution` | Streamlit_app.py:155-162 | No table when no skill is selected. Otherwise there is one entry per non-Remote reference state, in order, each counting the rows at that state that hold a selected skill. |
| `Views.SkillFilter` | Streamlit_app.py:157 | Keeps only rows of the input that hold a selected skill, and never adds rows. |
| `Views.SkillFilterSelects` | Streamlit_app.py:157 | A row is kept exactly when its skill list holds a selected skill, and kept rows stay in order. |
| `Views.SkillSelectionMonotone` | Streamlit_app.py:157-158 | Selecting more skills never lowers a state's count. |
| `Views.EmploymentTypeTable` | Streamlit_app.py:170-173 | One entry per reference state, in order, Remote included. |
| `Views.RegionalEmploymentTrends` | Streamlit_app.py:166-175 | One table per employment type, each with one entry per reference state. |
| `Views.RegionalTablesCount` | Streamlit_app.py:166-175 | Table `j` is for the `j`-th of full-time, part-time and contract: its entry `i` is the `i`-th reference state with the number of rows of that type located there. |
| `Views.EmploymentTableCounts` | Streamlit_app.py:168-173 | Each entry of an employment type's table counts the rows of that type at the entry's state. |
| `Views.EmploymentData` | Streamlit_app.py:168 | Exactly the rows whose employment type is one of the three mapped types. |
| `Views.GroupSizeCounts` | Streamlit_app.py:168-169 | The group size for (location, type) is the number of rows of that type at that location. |
| `Views.GroupSize` | Streamlit_app.py:169 | A group size is at most the number of rows, and zero exactly when no row is in the group. |
| `Views.GroupSizeIsCountWhere` | Streamlit_app.py:169 | A group size is the general row count with the group's mask. |
| `Views.EmploymentTableIsMerge` | Streamlit_app.py:170-173 | Take the inline join for one employment type and drop "Remote". The result is `merge_location_data` of the rows of that type. |
| `Views.IndustryTrendsBound` | Streamlit_app.py:178-179 | A state's count for an industry is at most its count over all rows. The two are equal when every row there is of that industry. |
| `Views.IndustryTrends` | Streamlit_app.py:178-179 | One entry per non-Remote reference state, in order, each counting the industry's rows at that state. |
| `Ranking.CompanyNames` | Streamlit_app.py:229 | The names are exactly the present company names of the rows. |
| `Ranking.CompanyNamesCount` | Streamlit_app.py:229 | A company occurs among the names as often as it has rows. |
| `Ranking.Uniques` | Streamlit_app.py:229 | Each name appears once, and the same names appear as in the input. |
| `Ranking.Tally` | Streamlit_app.py:229 | One entry per company with no company twice, every name has an entry, and each count is the name's number of occurrences, at least one. |
| `Ranking.Insert` | Streamlit_app.py:229 | Inserting into a ranking keeps it sorted by count, highest first, and adds exactly the one entry. |
| `Ranking.SortDesc` | Streamlit_app.py:229 | The ranking is sorted by count, highest first, and is a permutation of its input. |
| `Ranking.ValueCounts` | Streamlit_app.py:229 | `value_counts()` is sorted by count, highest first, and is a permutation of the tally. |
| `Ranking.RankedEntries` | Streamlit_app.py:229 | `value_counts()` has one entry per distinct name. Each entry is a name with its number of occurrences, at least one. |
| `Ranking.RankedDistinct` | Streamlit_app.py:229 | No company has two entries. |
| `Ranking.RankedComplete` | Streamlit_app.py:229 | Every name has an entry. |
| `Ranking.Head` | Streamlit_app.py:231 | `head(n)`; its contract is `Ranking.HeadKeepsRanking` and `Ranking.LeftOutOfHead`. |
| `Ranking.HeadKeepsRanking` | Streamlit_app.py:231 | The head of a ranking is still sorted, still has one entry per company, and holds only entries of the ranking. |
| `Ranking.LeftOutOfHead` | Streamlit_app.py:231 | An entry cut off by `head` has no higher count than any entry kept. |
| `Ranking.LeftOutRanksLower` | Streamlit_app.py:229-231 | A name cut off by `head` occurs no more often than any name kept. |
| `Ranking.TopOfValueCounts` | Streamlit_app.py:229-231 | The top `TopN` entries have one entry per name, highest first, with true counts. There are `min(TopN, #names)` of them, and no name left out occurs more often than one kept. |
| `Ranking.TopCompaniesRanking` | Streamlit_app.py:224-231 | For the chosen category and location: at most 20 companies, distinct, sorted by postings with true counts. There are fewer than 20 only when fewer companies have postings, and no company left out has more postings than one listed. |
| `Ranking.TopCompanies` | Streamlit_app.py:224-231 | At most 20 entries, sorted by count, highest first; the full contract is `Ranking.TopCompaniesRanking`. |

## Left out

- Page configuration, sidebar, page navigation through session state, spinners and `st.error` messages: these are user-interface runtime with no logic to state.
- `load_data` and its cache: reading the CSV and text files is file I/O.
- The GeoJSON fetch and all Altair and Plotly chart construction: these are network access and foreign rendering libraries.
- The percentage column of the top-companies table: it is floating-point arithmetic and rounding.
- `pd.to_numeric(..., errors='coerce')`: number parsing is the oracle parameter `parseNumber`, which returns an integer or nothing. The truncation of a finite float by `astype(int)`, and the wrap-around of a finite float outside the 64-bit range, are inside that oracle.
- The Python literal grammar of `ast.literal_eval`: it is the oracle parameter `literalEval`. Its outcomes are a string, a list, some other value, or a raised `ValueError`, `SyntaxError`, `TypeError`, `RecursionError` or `MemoryError`.
- Skills.CleanItems: a bytes list element (`[b' SQL ']`) is treated like any other non-string element and gives `AttributeError`; Python strips and lower-cases it into a bytes skill, which the model's text-only skill lists cannot hold.
- Skills.ListLiteralParsed: inherits the bytes gap of CleanItems; a list of bytes gives `AttributeError` here instead of a list of bytes skills.
- Duplicate-column removal (`df.columns.duplicated()`): a row has fixed fields here, so a repeated column cannot occur.
- The skills treemap page (explode, vocabulary filter, skill counts, and the guard that refuses some colour schemes): it is not part of the modelled core.
- Text.Lower: only the ASCII letters A-Z are lower-cased. Python's `str.lower` also maps non-ASCII letters, and maps some of them to several characters.
- Preprocess.JobFrame.PreprocessData: the only caught exceptions modelled are the `KeyError`s from missing columns. A count cell reading "inf" or "-inf" parses to an infinite float. That float survives `fillna(0)`, and `astype(int)` then raises (Streamlit_app.py:33). The `except` at line 35 catches this and returns an empty frame. The model does not have this path, because `parseNumber` yields only integers or nothing.
- Views.SkillFilter: requires every skills cell to be parsed already, as line 92 ensures before any page is drawn. Substring matching on unparsed text is not modelled.
- Preprocess.ParseSkillsColumn: requires every skills cell to hold the text read from the file, as it does when line 92 runs.
- Ranking.SortDesc: ties are kept in order of first appearance. The ranking lemmas do not depend on this, so they hold for any tie order pandas uses.

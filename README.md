# Career fair booth optimizer — a Dafny model

This project models a career-fair layout optimizer. It assigns companies to booths so that popular companies do not end up next to each other.

## What is modelled

- **The optimizer script** (`main.py`), in these files:
  - `booth_conflicts.dfy`: the relationship-detection loop. It finds back-to-back and same-column booth pairs.
  - `booth_conflicts.dfy`: the conflict-weight dictionary.
  - `formulation.dfy`: the CP-SAT model the script posts. This covers one `y` variable per company and booth, the "one booth per company" and "at most one company per booth" rows, the `z`/`z1`/`z2` linearisation for every conflict edge and company pair, and the truncated integer costs of the objective.
  - `formulation.dfy`: reading the assignment back after an OPTIMAL or FEASIBLE answer.
  - `optimizer.dfy`: the script end to end.
  - `cp_sat.dfy`: the engine's interface. The engine is a function parameter, kept honest by `SoundEngine`:
    - an answered status comes with values that satisfy every posted constraint;
    - OPTIMAL comes with an objective no other solution beats.
  - The headline results, in `formulation_proofs.dfy`:
    - a solution's read-out gives every selected company, in order, its own booth;
    - the objective equals the congestion of that placement;
    - under OPTIMAL no one-to-one placement is less congested;
    - with distinct booth numbers, a solution exists exactly when the companies are distinct and there are at least as many booths as companies.
- **The layout extractor** (`extract_layout.py`), in `layout_extraction.dfy`:
  - reading a booth number out of OCR text;
  - the area, shape and OCR filter over contours, and each booth's centre;
  - the "nothing detected" error;
  - the sort by booth number;
  - the choice between CSV and Excel output.
- **The HTTP wrapper** (`api_server.py`), in `api_server.dfy`:
  - reading company names from an uploaded sheet;
  - normalising a JSON company list;
  - the precedence between the JSON field and the file, and the 400 errors;
  - choosing between the spreadsheet and the image pipeline, and the command line for each.
- **The image driver** (`run_from_image.py`), in `image_pipeline.dfy`:
  - the PDF check;
  - the cleanup list;
  - assembling the optimizer command;
  - propagating a failed child's exit code;
  - removing the temporary files after a successful run.
- **Shared definitions**:
  - `text.dfy`: the Python string behaviour the core relies on. This is `str.isdigit`, `int()` of a digit string, `str(int)`, `str.strip`, `str.lower`, `str.endswith`, `Path.name` and `Path.suffix`.
  - `common.dfy`: `Option`, `Result` and "no duplicates".

## How external pieces become inputs

Spreadsheet reads, OpenCV and Tesseract, pdf2image, `json.loads`, the CP-SAT search and child processes all become function parameters or input records:

- the booth table is a sequence of `(id, x, y)`;
- the company sheet is a sequence of `(name, popularity)`;
- each contour is `(area, vertex count, bounding rectangle, OCR text)`;
- `solve`, `read`, `render`, `detect` and `run` are functions.

## Model

| member | source | states |
|---|---|---|
| BoothConflicts.DetectRelationships | main.py:31-47 | The two lists the loop builds equal `Detected` for back-to-back and same-column. `Detected` scans pairs in `combinations` order, each pair (b1, b2) with b1 before b2 in row order. |
| BoothConflicts.ClassifySymmetric | main.py:38-39 | Swapping the two booths of a pair never changes its class. |
| BoothConflicts.BackToBackGeometry | main.py:38-43 | A pair is back-to-back exactly when \|dy\| < 0.25 and \|dx - 1.5\| < 0.25, with both bounds strict. |
| BoothConflicts.SameColumnGeometry | main.py:42-47 | A pair is same-column exactly when \|dx\| < 0.25 and \|dy - 0.75\| < 0.25, with both bounds strict. No pair lies in both tolerance bands. |
| BoothConflicts.DetectedMembership | main.py:34-47 | (a, b) is in a detected list exactly when some row i < j has ids a and b and that class. |
| BoothConflicts.ScanWitness | main.py:34-47 | Every pair the scan lists comes from two rows r < k, with r among the rows scanned, holding its ids and having its class. |
| BoothConflicts.ScanHas | main.py:34-47 | Every two rows r < k of a class, with r among the rows scanned, have their pair listed. |
| BoothConflicts.DetectedListsDisjoint | main.py:42-47 | With distinct ids, no pair is in both lists, and no pair appears reversed in either list. |
| BoothConflicts.DetectedNoDuplicates | main.py:34-47 | With distinct ids, each detected list is duplicate-free. |
| BoothConflicts.NoDuplicatesAppend | main.py:116 | Two duplicate-free lists with no common element concatenate to a duplicate-free list. |
| BoothConflicts.InsertionOrder | main.py:116 | `list(weights.keys())` is duplicate-free and holds exactly the inserted keys. Their order, first insertion first, is stated by `InsertionOrderOfDistinct` and `DetectedEdges`. |
| BoothConflicts.InsertionOrderOfDistinct | main.py:111-116 | Inserting distinct keys gives back the same sequence. |
| BoothConflicts.BuildWeights | main.py:111-116 | The keys are exactly the union of both lists. Same-column pairs weigh 1.0 and the other back-to-back pairs 3.0, the later loop winning. The edges list is the keys in insertion order. |
| BoothConflicts.WeighAll | main.py:112-115 | Each weight loop stores its weight under every edge it visits, in order, into the dictionary it is given. |
| BoothConflicts.PutAllEntries | main.py:112-115 | After a weight loop, a key is present exactly when it was present before or the loop visited it. Its value is the loop's weight when visited and the old value otherwise. |
| BoothConflicts.PutAllOrder | main.py:111-116 | When the dictionary's key order is the insertion order of the earlier keys, a weight loop extends it to the insertion order of the earlier keys followed by the visited ones. |
| BoothConflicts.ConflictWeightsUnique | main.py:111-116 | Any map with those keys and values is the `ConflictWeights` map. |
| BoothConflicts.DetectedEdges | main.py:111-116 | With distinct ids, the conflict edges are the back-to-back list followed by the same-column list. |
| BoothConflicts.Ids | main.py:95 | The booth list is the id column in row order. It has no repeated number exactly when the layout's booth numbers are distinct. |
| Formulation.Trunc | main.py:132 | `int()` truncates toward zero on both signs. |
| Formulation.BoothTerms | main.py:104 | One unit term `y[c, b]` per booth, in booth order. |
| Formulation.CompanyTerms | main.py:108 | One unit term `y[c, b]` per company, in company order. |
| Formulation.CompanyRows | main.py:103-104 | One constraint `sum_b y[c, b] == 1` per company, in company order. |
| Formulation.BoothRows | main.py:107-108 | One constraint `sum_c y[c, b] <= 1` per booth, in booth order. |
| Formulation.BuildModel | main.py:97-135 | The posted model equals `ModelOf`: company rows, then booth rows, then the conflict blocks, with the cost terms as objective. |
| Formulation.PostRows | main.py:103-104 | The first loop posts exactly the company rows, one per company in order. |
| Formulation.PostColumns | main.py:107-108 | The second loop posts exactly the booth rows, one per booth in order. |
| Formulation.PostConflicts | main.py:119-133 | The edge loop posts the blocks of every slot in loop order, and the cost terms of the same slots. |
| Formulation.PostEdge | main.py:122-133 | One edge's company loop posts, round by round, what the inner loop posts for each first company. |
| Formulation.PostPairs | main.py:123-133 | The inner loop for company i posts one seven-constraint block and one cost term per later company j, in order of j. |
| Formulation.PairBlocksSlots | main.py:123-131 | What the inner loop posts is the blocks of its slots (i, j), j > i. |
| Formulation.PairCostsSlots | main.py:123-133 | What the inner loop collects is the cost terms of those slots. |
| Formulation.FirstBlocksSlots | main.py:122-131 | The first i rounds of the company loop post the blocks of the slots whose first company is below i. |
| Formulation.FirstCostsSlots | main.py:122-133 | The first i rounds of the company loop collect the cost terms of those slots. |
| Formulation.ExtractAssignment | main.py:146-152 | An assignment is read exactly when the status is OPTIMAL or FEASIBLE. It lists the (c, b) with value 1, companies in order and booths in order within each company. |
| FormulationProofs.PairSlotsMembership | main.py:123 | The inner loop visits a slot exactly when it is (e, i, j) with i < j < n. |
| FormulationProofs.CompanySlotsMembership | main.py:122-123 | The company loop for one edge visits a slot exactly when its pair is i < j < n. |
| FormulationProofs.EdgeSlotsMembership | main.py:120-123 | The edge loop visits a slot exactly when its edge is below the edge count and its pair is i < j < n. |
| FormulationProofs.SlotsMembership | main.py:120-123 | A slot is posted exactly when it is valid for the instance. |
| FormulationProofs.SlotsOnceInOrder | main.py:120-124 | Each slot is posted once, in lexicographic (edge, i, j) order. |
| FormulationProofs.EvalBoothTerms | main.py:104 | Over 0/1 values, a company row's sum equals the number of booths the read-out gives it. |
| FormulationProofs.RowAssignmentMembership | main.py:149-152 | The read-out for c holds (c, b) exactly for the booths b with value 1. |
| FormulationProofs.EvalCompanyTermsAtMostOne | main.py:108 | Over 0/1 values, a booth column sums to at most 1 when no two companies take that booth. |
| FormulationProofs.BlocksMembership | main.py:124-131 | A constraint is posted in the conflict part exactly when it belongs to some slot's block. |
| FormulationProofs.ModelMeaning | main.py:100-131 | A value set satisfies the model exactly when it is 0/1, every company row holds, every booth column holds and every slot block holds. |
| FormulationProofs.SolutionFamilies | main.py:100-131 | A solution satisfies the three constraint families. |
| FormulationProofs.FamiliesSolution | main.py:100-131 | 0/1 values satisfying the three families form a solution. |
| FormulationProofs.AssignmentRows | main.py:148-152 | When every company has exactly one booth at 1, the read-out has one entry per company, in company order. |
| FormulationProofs.SolutionIsOneToOne | main.py:103-152 | A solution's read-out places each company, in order, in its own booth of the layout, and no booth twice. |
| FormulationProofs.DistinctBooths | main.py:107-108 | Two companies at value 1 on the same booth would break that booth's column. |
| FormulationProofs.SolutionCompaniesDistinct | main.py:100-108 | A solution exists only when the company names are distinct, because a repeated name shares its `y` variables. |
| FormulationProofs.SolutionNeedsEnoughBooths | main.py:103-108 | A solution exists only when there are at least as many booths as companies. |
| FormulationProofs.AndLinearization | main.py:127-130 | Over 0/1 values, `zz <= a`, `zz <= b`, `zz >= a + b - 1` hold exactly when zz = a ∧ b. |
| FormulationProofs.MaxLinearization | main.py:131 | Over 0/1 values, `AddMaxEquality(z, [z1, z2])` holds exactly when z = z1 ∨ z2. |
| FormulationProofs.BlockSemantics | main.py:124-131 | A slot's block holds exactly when z1 and z2 are the two orientation conjunctions and z is their disjunction. |
| FormulationProofs.YAtAssignedBooth | main.py:148-152 | In a solution, `y[c_k, b]` is 1 exactly when the read-out gives company k booth b. |
| FormulationProofs.ZIsOccupancy | main.py:124-131 | In a solution, a slot's z is 1 exactly when its two companies occupy the edge's two booths, in either orientation. |
| FormulationProofs.EvalCostTerms | main.py:132-135 | When z is occupancy, the cost terms sum to the congestion over those slots. |
| FormulationProofs.ObjectiveIsCongestion | main.py:132-135 | The objective of a solution is the sum of `int(w·p1·p2·1000)` over conflict edges and company pairs i < j that occupy the edge. |
| FormulationProofs.NoConflictsNoCost | main.py:119-135 | With no conflict edges the objective is empty and every placement costs 0. |
| FormulationProofs.PlacementIsSolution | main.py:100-131 | With distinct names and booths, every one-to-one placement extends to a solution whose read-out is that placement. |
| FormulationProofs.OptimalIsLeastCongested | main.py:135-152 | Under OPTIMAL the read-out is one-to-one, and no one-to-one placement has smaller congestion. |
| FormulationProofs.FeasibleIff | main.py:100-108 | With distinct booths, a solution exists exactly when the companies are distinct and no more numerous than the booths. |
| Optimizer.PresentMembership | main.py:82 | `dropna()` keeps exactly the present names. |
| Optimizer.SelectionIsPrefix | main.py:82 | The selection is the first min(50, present) present names, in sheet order, and nothing else. |
| Optimizer.PopularityLastWins | main.py:84 | A name has a popularity exactly when some row carries it, and the value is that of the last such row. |
| Optimizer.LayoutInstanceWellFormed | main.py:95-132 | Every dictionary lookup the script makes succeeds: each edge's weight, each edge's booths, and each selected company's popularity. |
| Optimizer.OptimizeLayout | main.py:31-158 | An assignment is produced exactly when the engine answers OPTIMAL or FEASIBLE. It is the read-out of the engine's own values. It places each selected company in its own layout booth. Under OPTIMAL it has least congestion among all one-to-one placements. |
| Optimizer.AnsweredAssignment | main.py:146-152 | A sound engine's answered values read out one-to-one, and are least congested when OPTIMAL. |
| Text.DecimalRoundTrip | extract_layout.py:48 | `int()` of the decimal text of n is n. |
| Text.StripSlice | api_server.py:50 | `strip()` returns a slice of the text with only whitespace cut away on each side. |
| Text.StripEmptyIffBlank | api_server.py:103 | `strip()` gives the empty string exactly when the text is whitespace only. |
| Text.StripIdempotent | api_server.py:50 | Stripping twice is stripping once. |
| Text.RFind | extract_layout.py:102 | Gives the last index of the character, or -1 if it does not occur. |
| Text.Name | extract_layout.py:101 | A path's name is the whole text after its last '/': it has no '/', ends the path, and is either the whole path or preceded by a '/'. |
| Text.Suffix | extract_layout.py:102 | A suffix is empty, or a final '.'-segment, shorter than the name, that has one dot and ends the name. `ExtensionMatch` determines the lower-cased suffix for every dotted extension. |
| Text.ExtensionMatch | extract_layout.py:102 | A lower-cased suffix equals an extension exactly when the name is longer than it and ends with it in any case. |
| LayoutExtraction.KeepDigits | extract_layout.py:47 | Only digits are kept, and never more characters than the text has. |
| LayoutExtraction.KeepDigitsAppend | extract_layout.py:47 | Filtering the digits of two joined texts gives the digits of each, in order. |
| LayoutExtraction.KeepDigitsOfDigits | extract_layout.py:47 | A text made only of digits is kept whole. |
| LayoutExtraction.KeepDigitsOfNonDigits | extract_layout.py:47 | A text with no digit keeps nothing. |
| LayoutExtraction.OcrNoneIffNoDigit | extract_layout.py:47-48 | No number is read exactly when the text holds no digit. |
| LayoutExtraction.OcrIgnoresNonDigit | extract_layout.py:47-48 | Inserting a non-digit anywhere does not change the number read. |
| LayoutExtraction.OcrReadsDecimal | extract_layout.py:47-48 | The decimal text of n, surrounded by digit-free noise, reads as n. |
| LayoutExtraction.CandidateMeaning | extract_layout.py:61-74 | A contour yields a booth exactly when min ≤ area ≤ max (inclusive), it has 4 vertices and OCR reads a number. The booth's centre is (x + w/2, y + h/2). |
| LayoutExtraction.KeptMembership | extract_layout.py:60-74 | The loop keeps exactly the candidates of the contours. |
| LayoutExtraction.Insert | extract_layout.py:92 | Inserting into a sorted table keeps it sorted and adds exactly that row. |
| LayoutExtraction.SortByBooth | extract_layout.py:92 | The sort gives ascending booth numbers and keeps every row, duplicates included. |
| LayoutExtraction.ExtractBooths | extract_layout.py:57-97 | Fails exactly when no contour is kept. Otherwise the rows are the kept booths, sorted by booth number, as a permutation. |
| LayoutExtraction.SaveFormatByEnding | extract_layout.py:100-105 | The table is CSV exactly when the file name is longer than ".csv" and ends with it in any case, and Excel otherwise. |
| LayoutExtraction.DotfileIsExcel | extract_layout.py:101-105 | A file named just ".csv" has no suffix and is written as Excel. |
| ApiServer.ParseCompaniesFromFile | api_server.py:31-57 | An empty upload gives []. An unreadable sheet is a 400 and nothing else is. An empty sheet gives []. Otherwise the names come from the first column. A success is always `UploadNames` of the upload. |
| ApiServer.FirstColumnNames | api_server.py:47-57 | The loop collects `CellNames` of the column: strings stripped, NaN skipped, others `str()`-ed, empty results dropped, order kept. |
| ApiServer.CellNamesMembership | api_server.py:48-56 | A name is collected exactly when some cell of the column yields it. |
| ApiServer.CellNamesClean | api_server.py:48-56 | No collected name is empty, and names from string cells carry no surrounding whitespace. |
| ApiServer.NumberNameClean | api_server.py:54 | `str()` of an integer is non-empty and has nothing to strip. |
| ApiServer.CellNameClean | api_server.py:48-56 | A cell's name, when there is one, is non-empty and strip-stable. For values other than strings and integers this needs their `str()` to be strip-stable. |
| ApiServer.CellNamesIdempotent | api_server.py:48-56 | Feeding the collected names back as a string column gives the same names. |
| ApiServer.JsonAgreesWithSheet | api_server.py:103 | The JSON normalisation equals the sheet normalisation of the same strings. |
| ApiServer.SelectCompanyList | api_server.py:97-112 | A non-empty JSON field wins over a file. A malformed or non-list payload is a 400. With no input at all it is a 400. With a file and no JSON field, a readable file gives exactly its names, and a 400 only when it has none. An empty result is a 400. Success yields a non-empty list of non-empty names. |
| ApiServer.LayoutFileName | api_server.py:61 | The layout file name is never empty: it falls back to "upload.bin". |
| ApiServer.LayoutPathName | api_server.py:120-124 | For an upload name without a separator, the written layout path ends in that name, so the spreadsheet test is a test of the uploaded name's suffix. |
| ApiServer.SpreadsheetByEnding | api_server.py:124 | The layout counts as a spreadsheet exactly when its name ends, in any case, with .xlsx, .xls or .csv after a non-empty stem. |
| ApiServer.LayoutCommandShape | api_server.py:124-160 | Spreadsheets run main.py with "--layout-file" and twelve arguments. Anything else runs run_from_image.py with "--image" and the area bounds. "--invert" is appended only on the image branch and only when requested. |
| ImagePipeline.FileStore.Write | run_from_image.py:85-92 | Writing a file stores its content at its path and changes nothing else. |
| ImagePipeline.FileStore.Remove | run_from_image.py:117-121 | Removing a path drops it, and a missing file is ignored. |
| ImagePipeline.RemoveAllMeaning | run_from_image.py:117-121 | After the cleanup loop, a file survives exactly when it is not listed, with its content unchanged. |
| ImagePipeline.RemovePaths | run_from_image.py:117-121 | The loop removes the listed paths one by one. |
| ImagePipeline.BuildCommand | run_from_image.py:96-111 | The command satisfies `CommandFor`: it starts with the eight base arguments. Then comes exactly one company source, the JSON list when given and the popularity file otherwise. Then `--json-out` when given. |
| ImagePipeline.PrepareImage | run_from_image.py:77-82 | A ".pdf" path (any case) is rendered, and the page becomes the image read and the first cleanup path. Any other path is read as it is, with an empty cleanup list. |
| ImagePipeline.RunPipeline | run_from_image.py:74-121 | Render failures and extraction failures stop the run. The cleanup list is the rendered page (for a PDF) followed by the temporary table. When no booth is found, the rendered page (for a PDF) stays on disk and is the only cleanup path. The command run is exactly `CommandFor` the temporary table. A non-zero exit code is returned with every file left in place. Only a zero exit removes the cleanup paths. |
| ImagePipeline.CleanupAfterWrites | run_from_image.py:117-121 | After the two tables are written, removing a list that holds the temporary table leaves none of the listed paths, keeps an unlisted coordinates table with its content, and keeps every other unlisted file unchanged. |
| ImagePipeline.CompletedCleanup | run_from_image.py:117-121 | After a successful run the temporary table and rendered page are gone. The coordinates table, and every file the run did not touch, are kept. |

## Left out

- The CP-SAT search itself, with its 60-second limit and 8 workers, is not modelled. The engine is a parameter whose answers are assumed sound (`SoundEngine`). The model therefore proves only what the posted constraints and the read-out guarantee.
- The matplotlib plot and all console output are not modelled. They are output only.
- The pandas spreadsheet loading and the script's hard-coded file names are not modelled. The booth table and the company sheet are inputs.
- Distinct booth numbers are required by `DetectRelationships`, `OptimizeLayout` and the lemmas that depend on them. The script's `.loc[...].values[0]` takes the first row for a repeated number; that case is not modelled.
- OpenCV (loading, thresholding, contours, polygon approximation, drawing) and Tesseract are not modelled. Each contour arrives as a record of what they report.
- The debug image that the extractor draws and saves is not modelled.
- The order of rows with equal booth numbers after `sort_values` is not modelled. pandas does not promise it, and the model states only sortedness and permutation.
- `json.loads`, the spreadsheet readers, pdf2image and the child processes are not modelled. Each is a parameter; `str()` of values other than strings and integers is given as text.
- The FastAPI request layer is not modelled. This covers the temporary directory, writing the uploads, the async subprocess, the JSON reply, base64 plot encoding and the 500 errors at api_server.py:162-187.
- build_popularity_from_market_cap.py is not part of this model. It is a network client for market data.
- Floating point is not modelled. Coordinates, tolerances and popularity are reals, and `int()` is truncation toward zero; IEEE rounding is not modelled.
- Optimizer.OptimizeLayout: a blank Popularity cell is NaN in pandas, and for a selected company on a conflict edge `int()` of its cost raises ValueError. Popularity is a real in the model, so that failure is not modelled.
- ImagePipeline.FileStore.Remove: the cleanup loop ignores every OSError. A present file that cannot be deleted stays on disk, but the model always removes it; permissions are not modelled.
- ImagePipeline.FileStore.Write: writes always succeed. In the driver, a failing save of the coordinates table or of the temporary Excel table raises, stops the run and cleans nothing up; a temporary file already created but not yet listed for cleanup then stays on disk. Disk errors are not modelled.
- Only ASCII whitespace, digits and letters are modelled for `isspace`, `isdigit` and `lower`.
- `Path.name` is modelled as the text after the last '/'; trailing-slash normalisation is not modelled.
- Names that are NaN never reach the popularity dictionary's keys in the model: `PopularityTable` skips rows without a name.
- ApiServer.CellNamesIdempotent: assumes that `str()` of every non-string, non-integer cell has no surrounding whitespace. The model receives that text as an input and cannot derive it.
- The command-line flags passed to main.py by the wrapper and the image driver are not modelled as parsed. main.py as written reads no command line; it takes the first 50 present names in file order rather than any maximum given by a flag, and the model follows the code.

## Notes on the code

- The company selection keeps the first 50 present (non-null) names in file order. Empty and blank strings are present and are kept. It does not rank companies by popularity.
- `X if c else Y + Z` parses as `X if c else (Y + Z)`, so "--invert" goes only into the image command.
- `save_table` tests the suffix of the file name, so a file named just ".csv" is written as Excel.

# uib_experiments — a Dafny model of its core

uib_experiments helps a researcher keep the outputs of numbered experiments.
An `Experiment` owns a folder `exp_<n>` under a parent folder. When no number
is given, it takes one more than the largest number already present. It saves
`Data` results (images, strings, JSON-serialised objects, coordinate arrays,
and images with coordinates drawn on them) into sub-folders, naming unnamed
files by the number of entries already there. `ExperimentDB` stores each
experiment and its parameters and metrics in a relational database, through
an ORM.

This project models that core and proves properties about it:

- `wrappers.dfy` (module `Wrappers`): `Option`, `Result`, and the Python
  exceptions the core raises.
- `dades.dfy` (module `Dades`): `Data`, an immutable value with a validating
  constructor and the `data` accessor. JSON encoding is a function parameter
  `dumps`. Every field is set once, so no accessor changes state.
- `naming.dfy` (module `Naming`): the pure string logic.
  - `str(int)` and `int(str)`.
  - POSIX `os.path.join` and `os.path.split(...)[-1]`.
  - The fields of `str.split`.
  - Resolving an experiment's sequence number.
  - The `.*\..{3}$` default-extension rule.
- `draw_points.dfy` (module `DrawPoints`): `_draw_points` as a method over a
  2-D integer array. It is proved cell by cell against the function
  `DrawnCell`. Slices and negative indices follow numpy's rules. `Draw` has no
  `modifies` clause, so the input image is provably left as it was.
- `experiment.dfy` (module `Experiments`):
  - The `Experiment` value and its numbering.
  - A `FileSystem` class: directories with their entry names, plus the write
    requests made so far.
  - `save_result`'s dispatch and the four save routines. Each is a method
    proved against a function of the filesystem state.
- `database.dfy` (module `Database`):
  - The Result and Param tables and their links to experiments, as mutable
    `TableStore` objects.
  - `__add_elements` as a loop proved against the fold `AddAll`.
  - `ExperimentDB` with `start`, `add_experiment`, `add_metrics` and
    `add_params`.

Where the code disagrees with the project's description, the model follows
the code:

- The coordinates-on-image payload unpacks as `(coordinates, image)`.
- The overlay is drawn with value 1 and side 2.

## Model

| member | source | states |
|---|---|---|
| Dades.NewData | dades/dades.py:12-27 | construction succeeds iff the tag is one of "I", "S", "O", "C", "CI", else ValueError("Not a valid data type"); the payload is kept |
| Dades.Value | dades/dades.py:29-41 | every tag but "O" returns the stored payload unchanged; "O" returns the serialisation of the payload's attribute map, and fails when the payload has no `__dict__` |
| Dades.ConstructThenRead | dades/dades.py:20-59 | `storage_type` and `path` return exactly the constructor's arguments; `data` returns the payload for every tag but "O" |
| Dades.ObjectValueFromStoredPayload | dades/dades.py:20-37 | for "O" the stored payload is the object given, and `data` is recomputed from it as `dumps(__dict__)` |
| Dades.StorageTypesAreTheValidTags | dades/dades.py:22-23 | the tag list the dispatch indexes holds exactly the tags the constructor accepts |
| Naming.NatToString | experiments/experiment/experiment.py:39 | `str(n)` is a non-empty run of digits without a leading zero |
| Naming.IntToString | experiments/experiment/experiment.py:39 | `str(i)` is digits with at most a leading '-' |
| Naming.ParseInt | experiments/experiment/experiment.py:34 | `int()` on an optional sign and digits; ParseIntAcceptsLiterals and ParseIntToString state which texts it reads and that it inverts `str` |
| Naming.DigitsValueOnDigits | experiments/experiment/experiment.py:34 | a digit run has a value exactly when it is non-empty and all digits |
| Naming.ParseIntAcceptsLiterals | experiments/experiment/experiment.py:34 | `int()` accepts exactly an optional sign followed by digits; the sign decides the sign of the value |
| Naming.DigitsOfNatToString | experiments/experiment/experiment.py:34-39 | the digits of `str(n)` read back as n |
| Naming.ParseIntToString | experiments/experiment/experiment.py:34-39 | `int(str(i)) == i` for every integer |
| Naming.FirstField | experiments/experiment/experiment.py:31 | `s.split(sep)[0]`; FirstFieldIsPrefixUpToSeparator states its shape |
| Naming.LastField | experiments/experiment/experiment.py:31 | `s.split(sep)[-1]`; LastFieldIsSuffixAfterSeparator states its shape |
| Naming.FirstFieldIsPrefixUpToSeparator | experiments/experiment/experiment.py:31 | `s.split(sep)[0]` is the longest prefix of s without sep |
| Naming.LastFieldIsSuffixAfterSeparator | experiments/experiment/experiment.py:31 | `s.split(sep)[-1]` is the longest suffix of s without sep |
| Naming.Basename | experiments/experiment/experiment.py:31 | `os.path.split(p)[-1]`, the text after the last '/' |
| Naming.Join | experiments/experiment/experiment.py:39 | POSIX `os.path.join` of two parts: an absolute second part replaces the first, else one '/' separates them; JoinThenBasename states the round trip |
| Naming.JoinThenBasename | experiments/experiment/experiment.py:29-39 | `split(join(a, b))[-1] == b` for one non-absolute component b |
| Naming.IsExpEntry | experiments/experiment/experiment.py:29 | the names the pattern `exp_*` matches |
| Naming.ExpSuffix | experiments/experiment/experiment.py:31-34 | the number after the last '_' of the stem before the first '.'; ExpFolderSuffix shows it reads back the folder of experiment n as n |
| Naming.ExpSuffixOfGlobbedPath | experiments/experiment/experiment.py:29-34 | the number read from the base name of a globbed path join(parent, e) is the number of the entry e |
| Naming.MaxExpNumber | experiments/experiment/experiment.py:29-34 | a failure of the scan is ValueError("could not convert string to float") |
| Naming.MaxExpNumberIsMaxScan | experiments/experiment/experiment.py:29-36 | the scan fails iff some `exp_*` entry has no integer suffix; it yields none iff there is no `exp_*` entry; otherwise it yields a suffix present in the listing that no entry exceeds |
| Naming.MaxScanUnique | experiments/experiment/experiment.py:30-34 | at most one result fits that description |
| Naming.MaxExpNumberIgnoresOrder | experiments/experiment/experiment.py:29-34 | two listings with the same entries yield the same scan result, whatever their order |
| Naming.ResolveNumber | experiments/experiment/experiment.py:27-38 | a non-negative number is kept as given; only an unset number can fail, and only with ValueError |
| Naming.ResolveNumberMeaning | experiments/experiment/experiment.py:28-36 | an unset number fails iff some `exp_*` entry has no integer suffix; it is 1 without `exp_*` entries; otherwise it is 1 + the largest suffix |
| Naming.ResolveNumberIgnoresOrder | experiments/experiment/experiment.py:29-36 | the resolved number does not depend on listing order |
| Naming.ExpFolderName | experiments/experiment/experiment.py:39 | "exp_" + str(n) matches `exp_*`, has no '/' and no '.', and its only '_' precedes str(n) |
| Naming.ExpFolderSuffix | experiments/experiment/experiment.py:31-39 | the folder of experiment n reads back as number n in a later scan |
| Naming.NextNumberExceedsExisting | experiments/experiment/experiment.py:28-39 | once the folder of experiment n exists, an unnumbered experiment in the same parent gets a number above n |
| Naming.ExperimentPath | experiments/experiment/experiment.py:39 | the experiment's folder has base name "exp_" + str(n) |
| Naming.HasExtension | experiments/experiment/experiment.py:116 | the direct test: drop one final newline, then no newline and a '.' fourth from the end; HasExtensionIsPattern proves it equals the regex |
| Naming.HasExtensionIsPattern | experiments/experiment/experiment.py:77 | the direct test agrees with `re.match(".*\..{3}$")`, with `.` excluding newlines and `$` also matching before a final newline (both directions) |
| Naming.WithDefaultExtension | experiments/experiment/experiment.py:116-117 | a name that matches is unchanged; any other name gets ".jpg" appended |
| Naming.DefaultExtensionIdempotent | experiments/experiment/experiment.py:116-117 | for a newline-free name the result matches the pattern, so applying the rule twice equals applying it once |
| Naming.DefaultExtensionNotIdempotentWithNewline | experiments/experiment/experiment.py:116-117 | with a newline inside the name, each application appends ".jpg" again |
| DrawPoints.SliceBound | experiments/experiment/experiment.py:195-197 | a slice bound lies in [0, n], and a bound already in [0, n] is used as is |
| DrawPoints.Covers | experiments/experiment/experiment.py:192-197 | the cells a point's mark covers: the wrapped cell [p[1], p[0]] for side 0, else the numpy slices [p[1]-side, p[1]+side) x [p[0]-side, p[0]+side); SquareInsideGrid and SquareNearTopEdgeIsEmpty state it |
| DrawPoints.DrawnCell | experiments/experiment/experiment.py:186-198 | a cell after all points are drawn in order; DrawnCellOutsideMarks and DrawnCellLastWins state its meaning |
| DrawPoints.DrawnCellOutsideMarks | experiments/experiment/experiment.py:183-200 | a cell covered by no point's mark keeps its input value |
| DrawPoints.DrawnCellLastWins | experiments/experiment/experiment.py:186-198 | a covered cell holds the value of the last point whose mark covers it |
| DrawPoints.SquareInsideGrid | experiments/experiment/experiment.py:195-197 | a square inside the grid covers exactly rows [y-side, y+side) and columns [x-side, x+side) |
| DrawPoints.SquareNearTopEdgeIsEmpty | experiments/experiment/experiment.py:195-197 | a negative slice start counts from the end: on a 10x10 grid the side-2 square at (5, 1) covers nothing |
| DrawPoints.FillBlock | experiments/experiment/experiment.py:195-197 | the slice assignment sets exactly the block [r0, r1) x [c0, c1) and leaves every other cell unchanged |
| DrawPoints.Draw | experiments/experiment/experiment.py:172-200 | returns a new array of the input's shape whose every cell is `DrawnCell` of the input cell; the input is not modified |
| Experiments.NewExperiment | experiments/experiment/experiment.py:27-39 | the folder of a constructed experiment has base name "exp_" + str(its number) |
| Experiments.NewExperimentKeepsGivenNumber | experiments/experiment/experiment.py:27-39 | a non-negative number is kept, and the folder is join(parent, "exp_" + str(n)) |
| Experiments.NewExperimentAfterExisting | experiments/experiment/experiment.py:28-39 | an unnumbered experiment gets a number above every experiment folder already present |
| Experiments.NewExperimentIgnoresListingOrder | experiments/experiment/experiment.py:29-36 | the experiment does not depend on the order glob lists the entries |
| Experiments.MakeDirs | experiments/experiment/experiment.py:156-169 | afterwards the folder exists; it is created empty only when absent; no other folder and no write changes |
| Experiments.MakeDirsIdempotent | experiments/experiment/experiment.py:166-167 | creating a folder twice is the same as creating it once |
| Experiments.AddEntry | experiments/experiment/experiment.py:132 | opening a file adds exactly its name to its folder |
| Experiments.WriteTo | experiments/experiment/experiment.py:119 | a write adds the file to its folder and appends exactly one request for join(dir, name) |
| Experiments.FileSystem.CreateFolder | experiments/experiment/experiment.py:166-167 | updates the filesystem as MakeDirs says |
| Experiments.FileSystem.Open | experiments/experiment/experiment.py:132 | updates the filesystem as AddEntry says |
| Experiments.FileSystem.Write | experiments/experiment/experiment.py:119 | updates the filesystem as WriteTo says |
| Experiments.Init | experiments/experiment/experiment.py:41-44 | creates the experiment's folder unless it exists |
| Experiments.FoldersForData | experiments/experiment/experiment.py:135-153 | the target folder is join(experiment folder, data path), created when absent; the name is the explicit one, else str(number of entries in that folder) |
| Experiments.CreateFoldersForData | experiments/experiment/experiment.py:144-153 | performs FoldersForData on the filesystem and returns its folder and name |
| Experiments.NameLookupAsWritten | experiments/experiment/experiment.py:148-149 | reading `data.name` raises AttributeError for every Data |
| Experiments.Route | experiments/experiment/experiment.py:48-59 | the corrected if-chain over the tag list, in the source's order; RouteByMeaning proves where each tag goes |
| Experiments.RouteByMeaning | experiments/experiment/experiment.py:48-59 | "I" goes to the image routine, "S" and "O" to the string routine, "C" to coordinates and "CI" to coordinates-on-image; any other tag performs no action (each an iff) |
| Experiments.RouteAsWritten | experiments/experiment/experiment.py:51-58 | the dispatch as written raises AttributeError: the dades module has no attribute `_STORAGES_TYPES` |
| Experiments.DispatchAsWrittenRejectsValidData | experiments/experiment/experiment.py:51-58 | every Data the constructor accepts is refused by the dispatch as written and routed by the corrected one |
| Experiments.OpenAsWritten | experiments/experiment/experiment.py:130-133 | opening the data folder itself for writing raises IsADirectoryError |
| Experiments.StringOpenAsWrittenFails | experiments/experiment/experiment.py:130-133 | as written, the open fails on the folder `_create_folders_for_data` has just created; corrected, the file `name` is created inside that folder |
| Experiments.SavetxtFile | experiments/experiment/experiment.py:100 | np.savetxt accepts a path and refuses a (folder, name) pair |
| Experiments.CoordinatesTargetAsWritten | experiments/experiment/experiment.py:98-100 | as written, np.savetxt receives the (folder, name) pair returned by `_create_folders_for_data` |
| Experiments.CoordinatesTargetAsWrittenFails | experiments/experiment/experiment.py:98-100 | as written, np.savetxt receives the pair and fails; corrected, it writes join(folder, name) |
| Experiments.DrawnGrid | experiments/experiment/experiment.py:183-200 | the drawn image has the input's shape |
| Experiments.SaveImgSpec | experiments/experiment/experiment.py:102-119 | folders and name, the default extension, then one image write of the payload; ImageNameHasExtension and SaveWritesIntoTargetFolder state its effect |
| Experiments.SaveStringSpec | experiments/experiment/experiment.py:121-133 | folders and name, the file created, then one text write; a non-text payload fails after the file exists; UnnamedStringGetsEntryCount and ThreeUnnamedStrings state its effect |
| Experiments.SaveCoordinatesSpec | experiments/experiment/experiment.py:82-100 | a non-array payload fails before any folder; otherwise folders and name, then one CSV write; CoordinatesNeedAnArray states the failure |
| Experiments.PointsOf | experiments/experiment/experiment.py:186-197 | the points `_draw_points` reads: point[0] as x and point[1] as y, from an array with two or more columns or a list of number pairs |
| Experiments.SaveCoordinatesImageSpec | experiments/experiment/experiment.py:61-80 | unpack (coordinates, image), draw with value 1 and side 2, then folders and name, the default extension, and one image write of the drawn grid; a payload of another shape fails before any folder |
| Experiments.SaveSpec | experiments/experiment/experiment.py:48-59 | `save_result`: the routine Route picks, and nothing for an unknown tag; UnknownTagChangesNothing and SaveWritesIntoTargetFolder state its effect |
| Experiments.UnknownTagChangesNothing | experiments/experiment/experiment.py:48-59 | a tag outside the list performs no action and leaves the filesystem unchanged |
| Experiments.CoordinatesNeedAnArray | experiments/experiment/experiment.py:94-98 | a coordinates payload that is not an array raises ValueError before any folder is created |
| Experiments.SaveWritesIntoTargetFolder | experiments/experiment/experiment.py:144-146 | a successful save leaves the target folder in place, keeps every folder with its entries, and appends exactly one write request |
| Experiments.UnnamedStringGetsEntryCount | experiments/experiment/experiment.py:148-152 | an unnamed string in a folder of n entries is written to the file str(n), and the folder then has n + 1 entries |
| Experiments.ThreeUnnamedStrings | experiments/experiment/experiment.py:148-152 | three unnamed strings saved in turn into a new folder land in "0", "1" and "2" |
| Experiments.ImageNameHasExtension | experiments/experiment/experiment.py:114-119 | an image is written to join(folder, name with the default extension), and for a newline-free name that file name matches the pattern |
| Experiments.SaveImg | experiments/experiment/experiment.py:102-119 | changes the filesystem and returns as SaveImgSpec says |
| Experiments.SaveString | experiments/experiment/experiment.py:121-133 | changes the filesystem and returns as SaveStringSpec says: the file is created before the payload is read |
| Experiments.SaveCoordinates | experiments/experiment/experiment.py:82-100 | changes the filesystem and returns as SaveCoordinatesSpec says |
| Experiments.DrawOnGrid | experiments/experiment/experiment.py:73 | drawing on a copy of the grid yields DrawnGrid |
| Experiments.SaveCoordinatesImage | experiments/experiment/experiment.py:61-80 | changes the filesystem and returns as SaveCoordinatesImageSpec says: unpack, draw with value 1 and side 2, then create the folder |
| Experiments.SaveResult | experiments/experiment/experiment.py:48-59 | changes the filesystem and returns as SaveSpec says |
| Database.Matches | uib_experiments/database_model/database.py:99-114 | the lookup and the link query filter: name and value, and theta only when one is given |
| Database.FindRow | uib_experiments/database_model/database.py:99-102 | the lookup yields the first matching row, and none exactly when no row matches |
| Database.LookupWithoutThetaIgnoresTheta | uib_experiments/database_model/database.py:99-100 | without theta a row is found iff some row has the name and value, whatever its theta |
| Database.HasLinkedMatch | uib_experiments/database_model/database.py:109-116 | `query.exists()`: the experiment is already linked to a row that passes the filter |
| Database.AddOne | uib_experiments/database_model/database.py:98-117 | one item of `__add_elements`, corrected to link the row just created; AddOneShape, AddOneSettles and AddOneKeepsRowsDistinct state its effect |
| Database.AddAll | uib_experiments/database_model/database.py:98-117 | the items one at a time, in iteration order; AddAllSettles, AddAllIdempotent and AddAllTouchesOnlyItsExperiment state its effect |
| Database.LinkElementAsWritten | uib_experiments/database_model/database.py:100-117 | as written, the element handed to `table.add` is the lookup's result, even for a row just created |
| Database.LinkElementAsWrittenMissesNewRow | uib_experiments/database_model/database.py:104-117 | as written, a new row leaves the element to link None; corrected, the new row carries the given theta and is linked |
| Database.AddOneShape | uib_experiments/database_model/database.py:104-117 | a row is created iff none matches, and it is exactly (name, value, theta); links are only added, and only for this experiment |
| Database.AddOneKeepsLinksValid | uib_experiments/database_model/database.py:116-117 | every link keeps pointing at an existing row |
| Database.AddOneKeepsRowsDistinct | uib_experiments/database_model/database.py:104-107 | no duplicate of an existing row is ever created |
| Database.AddOneSettles | uib_experiments/database_model/database.py:98-117 | afterwards the lookup finds a row and the experiment is linked to a matching row |
| Database.SettledIsFixpoint | uib_experiments/database_model/database.py:109-117 | adding an entry that is already stored and linked changes nothing |
| Database.AddOneKeepsSettled | uib_experiments/database_model/database.py:98-117 | adding one entry keeps every other stored and linked entry so |
| Database.AddAllSettles | uib_experiments/database_model/database.py:98-117 | after `__add_elements` every item of the dictionary is stored and linked |
| Database.AddAllOfSettled | uib_experiments/database_model/database.py:98-117 | items that are all stored and linked change nothing |
| Database.AddAllIdempotent | uib_experiments/database_model/database.py:98-117 | adding the same dictionary twice adds no extra rows or links |
| Database.AddAllKeepsInvariants | uib_experiments/database_model/database.py:98-117 | over a whole dictionary, links stay valid and rows stay distinct |
| Database.AddAllWithoutThetaKeepsThetaFree | uib_experiments/database_model/database.py:131 | the Param table, never given a theta, has no row with a theta |
| Database.AddAllTouchesOnlyItsExperiment | uib_experiments/database_model/database.py:110-117 | the links of every other experiment stay exactly as they were |
| Database.TableStore.GetOrNone | uib_experiments/database_model/database.py:99-102 | the scan returns the lookup's result, FindRow |
| Database.TableStore.Create | uib_experiments/database_model/database.py:105-107 | appends exactly the row and returns its id |
| Database.TableStore.Link | uib_experiments/database_model/database.py:117 | adds exactly the link |
| Database.TableStore.Clear | uib_experiments/database_model/database.py:36-40 | a new table is empty |
| Database.AddElements | uib_experiments/database_model/database.py:88-117 | processes the items in order; the table afterwards is AddAll of the table before |
| Database.OrEmpty | uib_experiments/database_model/database.py:62-66 | an omitted dictionary is read as empty |
| Database.ExperimentDB.Start | uib_experiments/database_model/database.py:22-40 | afterwards the database is bound to the file; the tables are created, empty, only when the file did not exist, and an existing file keeps its rows |
| Database.ExperimentDB.AddExperiment | uib_experiments/database_model/database.py:43-69 | appends the Experiment row, sets `db_object` to it, then adds the params and the results without theta; an omitted dictionary adds nothing; before `start` it fails and changes nothing |
| Database.ExperimentDB.AddMetrics | uib_experiments/database_model/database.py:72-85 | adds to the Result table with the given theta; fails, changing nothing, for an experiment never added or before `start` |
| Database.ExperimentDB.AddParams | uib_experiments/database_model/database.py:120-131 | adds to the Param table without theta; fails, changing nothing, for an experiment never added or before `start` |

## Left out

- Naming.ParseInt: reads only an optional sign and ASCII digits. Python's `int()` and `float()` also accept surrounding whitespace, underscores between digits and non-ASCII digits, and `float()` accepts spellings such as "1e3", "inf" and "1.0". Such suffixes are treated as carrying no number.
- Naming.MaxExpNumber: compares suffixes as exact integers. The source sorts by `float`, so two suffixes above 2^53 can tie, and the one `int()` then reads would depend on listing order.
- Naming.Join: `os.path.join` is modelled for POSIX only, without normalisation.
- Glob details are not modelled: hidden entries, and the difference between files and directories in the listing. Each listing is a parameter.
- Experiments.FoldersForData: folders are keyed by how their path is spelled, without normalisation. A data path of "" or one ending in '/' therefore names a second, empty folder, and an unnamed file saved there is named "0" where the source, which globs the real folder, counts its entries. The same holds for paths with "." components or doubled '/'.
- Experiments.MakeDirs: creates only the target folder. `os.makedirs` also creates missing ancestors and adds the folder to its parent's entries.
- Experiments.SaveCoordinatesImageSpec: accepts a `(coordinates, image)` payload only as a two-element tuple. Other two-element iterables are not modelled, and the exception classes of the failing shapes are approximated.
- Experiments.SaveCoordinatesImageSpec: refuses an image given as a nested list, which `np.copy` would turn into an array.
- Experiments.SaveImgSpec: records an image write for any payload. `cv2.imwrite` would refuse one that is not an image array, such as a string.
- Experiments.PointsOf: accepts integer points only. The float32 cast and float coordinates in `_draw_points` are not modelled.
- DrawPoints.Draw: requires a value for every point (`HasValueFor`). It also requires, for side 0, that every point indexes the grid (`Indexable`). The source raises IndexError part-way through otherwise.
- The bytes that `cv2.imwrite`, `np.savetxt` and `open().write` produce are not modelled. Each write is a recorded request.
- JSON encoding (`json.dumps`) is a function parameter.
- The `print` in `init` is not modelled.
- `finish` and `save_results_batch` are not part of the source modelled here.
- `uib_experiments.experiment`, whose objects the database functions receive, is not part of this model. `RunHandle` stands for it, with the fields the database reads.
- Peewee internals are not modelled: query building, SQL, `AutoField` numbering (ids are positions here), datetime defaults and `get_experiment`. Which matching row `get_or_none` returns is unspecified in SQL; the model takes the first by id.
- The as-written `table.add(None)` is not modelled; the Findings row records it.
- Concurrency is not modelled: two experiments that pick a number at the same time.
- Database.ExperimentDB.Start: an existing file is taken to hold the rows the model already has. A new file gives empty tables.

## Findings

The five defects below are independent, but the first three are masked by
earlier ones: `save_result` raises at lines 51-58 before it reaches any save
routine, and `_create_folders_for_data` raises at line 148 before it returns a
folder. Rows 1 and 2 are reached only once lines 51-58 and 148 are corrected.
Row 3 is reached directly by calling a save routine, and through `save_result`
only once lines 51-58 are corrected.

| source | as written | input that shows it | evidently intended | confidence | as-written member | corrected member |
|---|---|---|---|---|---|---|
| experiments/experiment/experiment.py:130-133 | `open(path, "w")` opens the data folder itself | with lines 51-58 and 148 corrected, any Data with tag "S" or "O": the folder was just created, so `open` raises IsADirectoryError | open join(path, name) | not executed | Experiments.StringOpenAsWrittenFails | Experiments.SaveString |
| experiments/experiment/experiment.py:98-100 | the `(path, name)` pair is bound to `path` and passed to `np.savetxt` | with lines 51-58 and 148 corrected, any Data with tag "C" and an array payload: savetxt raises on a tuple | savetxt(join(path, name)) | not executed | Experiments.CoordinatesTargetAsWrittenFails | Experiments.SaveCoordinates |
| experiments/experiment/experiment.py:148-149 | reads `data.name`, which `Data` never defines | any Data passed to a save routine: AttributeError | `Data` carries an optional name, used when present | not executed | Experiments.NameLookupAsWritten | Experiments.FoldersForData |
| experiments/experiment/experiment.py:51-58 | indexes `dades._STORAGES_TYPES`, which the dades module does not define | any Data: AttributeError | the tag list, by meaning: image, coordinates on image, string, object, coordinates | not executed | Experiments.DispatchAsWrittenRejectsValidData | Experiments.Route |
| uib_experiments/database_model/database.py:104-117 | the row `create` returns is dropped, so `element` stays None | the first metric (name "acc", value "0.9") added to an empty Result table: `table.add(None)` | link the row just created | not executed | Database.LinkElementAsWrittenMissesNewRow | Database.AddElements |

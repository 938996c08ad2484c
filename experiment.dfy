/** The Experiment class: a numbered output folder, and `save_result`, which
    routes a Data by its storage tag to a routine that creates the target
    folder, names the file and asks for it to be written. The filesystem is a
    map from directory paths to the names of their entries plus the list of
    write requests made so far; the bytes that OpenCV, numpy and `open` would
    write are not modelled. */
module Experiments {
  import opened Wrappers
  import opened Dades
  import opened Naming
  import DrawPoints

  // ---------------------------------------------------------------------
  // The experiment and its number
  // ---------------------------------------------------------------------

  /** An experiment: its number and its folder. Both are set once, by the
      constructor. */
  datatype Experiment = Experiment(numExp: int, path: string)

  /** Experiment(path, num_exp): `entries` are the names in the parent folder
      `parent`, in the order the directory lists them. */
  function NewExperiment(parent: string, entries: seq<string>, numExp: int): (r: Result<Experiment>)
    ensures r.Ok? ==> Basename(r.value.path) == "exp_" + IntToString(r.value.numExp)
  {
    match ResolveNumber(entries, numExp)
      case Err(x) => Err(x)
      case Ok(n) => Ok(Experiment(n, ExperimentPath(parent, n)))
  }

  /** A non-negative number is kept as given, and the folder is parent joined
      with "exp_<n>". */
  lemma NewExperimentKeepsGivenNumber(parent: string, entries: seq<string>, numExp: int)
    requires numExp >= 0
    ensures NewExperiment(parent, entries, numExp) ==
      Ok(Experiment(numExp, Join(parent, "exp_" + IntToString(numExp))))
  {
  }

  /** Without a number, an experiment started in a folder that already holds
      the folder of experiment n gets a larger number than n. */
  lemma NewExperimentAfterExisting(parent: string, entries: seq<string>, n: int)
    requires NewExperiment(parent, entries, -1).Ok?
    ensures NewExperiment(parent, entries + ["exp_" + IntToString(n)], -1).Ok?
    ensures NewExperiment(parent, entries + ["exp_" + IntToString(n)], -1).value.numExp > n
  {
    NextNumberExceedsExisting(entries, n);
  }

  /** The number chosen without a request does not depend on listing order. */
  lemma NewExperimentIgnoresListingOrder(parent: string, a: seq<string>, b: seq<string>, numExp: int)
    requires multiset(a) == multiset(b)
    ensures NewExperiment(parent, a, numExp) == NewExperiment(parent, b, numExp)
  {
    ResolveNumberIgnoresOrder(a, b, numExp);
  }

  // ---------------------------------------------------------------------
  // The filesystem
  // ---------------------------------------------------------------------

  datatype WriteKind = ImageFile | TextFile | CsvFile

  /** A request to write `content` to the file at `target`: cv2.imwrite,
      open().write or np.savetxt. */
  datatype WriteRequest = WriteRequest(kind: WriteKind, target: string, content: Payload)

  /** The directories (each with the names of its entries) and the write
      requests made so far. */
  datatype FsState = FsState(dirs: map<string, set<string>>, writes: seq<WriteRequest>)

  /** `_create_folder`: the directory exists afterwards; it is created, empty,
      only when absent, and no other directory changes. */
  function MakeDirs(s: FsState, path: string): (t: FsState)
    ensures path in t.dirs && t.writes == s.writes
    ensures forall p :: p in s.dirs ==> p in t.dirs && t.dirs[p] == s.dirs[p]
    ensures forall p :: p in t.dirs ==> p in s.dirs || p == path
    ensures path !in s.dirs ==> t.dirs[path] == {}
  {
    if path in s.dirs then s else s.(dirs := s.dirs[path := {}])
  }

  /** Creating a folder a second time changes nothing. */
  lemma MakeDirsIdempotent(s: FsState, path: string)
    ensures MakeDirs(MakeDirs(s, path), path) == MakeDirs(s, path)
  {
  }

  /** A file named `name` now exists in `dir`. */
  function AddEntry(s: FsState, dir: string, name: string): (t: FsState)
    requires dir in s.dirs
    ensures t.writes == s.writes && t.dirs.Keys == s.dirs.Keys
    ensures t.dirs[dir] == s.dirs[dir] + {name}
    ensures forall p :: p in s.dirs && p != dir ==> t.dirs[p] == s.dirs[p]
  {
    s.(dirs := s.dirs[dir := s.dirs[dir] + {name}])
  }

  /** A write of `content` into the file `name` of `dir`: the entry exists and
      the request is recorded. */
  function WriteTo(s: FsState, dir: string, name: string, kind: WriteKind, content: Payload): (t: FsState)
    requires dir in s.dirs
    ensures t.dirs == AddEntry(s, dir, name).dirs
    ensures t.writes == s.writes + [WriteRequest(kind, Join(dir, name), content)]
  {
    var u := AddEntry(s, dir, name);
    u.(writes := u.writes + [WriteRequest(kind, Join(dir, name), content)])
  }

  class FileSystem {
    var dirs: map<string, set<string>>
    var writes: seq<WriteRequest>

    function State(): FsState
      reads this
    {
      FsState(dirs, writes)
    }

    constructor(existing: map<string, set<string>>)
      ensures State() == FsState(existing, [])
    {
      dirs, writes := existing, [];
    }

    /** `_create_folder`: os.makedirs only when the path does not exist. */
    method CreateFolder(path: string)
      modifies this
      ensures State() == MakeDirs(old(State()), path)
    {
      if path !in dirs {
        dirs := dirs[path := {}];
      }
    }

    /** The number of entries glob(join(dir, "*")) finds. */
    function EntryCount(dir: string): nat
      reads this
      requires dir in dirs
    {
      |dirs[dir]|
    }

    /** open(join(dir, name), "w"): the file exists, still empty. */
    method Open(dir: string, name: string)
      requires dir in dirs
      modifies this
      ensures State() == AddEntry(old(State()), dir, name)
    {
      dirs := dirs[dir := dirs[dir] + {name}];
    }

    /** Records a request to write `content` to join(dir, name). */
    method Write(dir: string, name: string, kind: WriteKind, content: Payload)
      requires dir in dirs
      modifies this
      ensures State() == WriteTo(old(State()), dir, name, kind, content)
    {
      dirs := dirs[dir := dirs[dir] + {name}];
      writes := writes + [WriteRequest(kind, Join(dir, name), content)];
    }
  }

  /** `init`: creates the experiment's folder unless it exists. */
  method Init(e: Experiment, fs: FileSystem)
    modifies fs
    ensures fs.State() == MakeDirs(old(fs.State()), e.path)
  {
    fs.CreateFolder(e.path);
  }

  // ---------------------------------------------------------------------
  // Folders and names for a Data
  // ---------------------------------------------------------------------

  /** `_create_folders_for_data`: the folder is the experiment's folder joined
      with the Data's path, created when absent; the file name is the Data's
      own name, or else the number of entries already in that folder. */
  function FoldersForData(e: Experiment, d: Data, s: FsState): (r: (FsState, string, string))
    ensures r.0 == MakeDirs(s, Join(e.path, d.path)) && r.1 == Join(e.path, d.path)
    ensures d.name.Some? ==> r.2 == d.name.value
    ensures d.name.None? ==> r.2 == IntToString(|r.0.dirs[r.1]|)
  {
    var dir := Join(e.path, d.path);
    var t := MakeDirs(s, dir);
    (t, dir, if d.name.Some? then d.name.value else IntToString(|t.dirs[dir]|))
  }

  method CreateFoldersForData(e: Experiment, d: Data, fs: FileSystem) returns (dir: string, name: string)
    modifies fs
    ensures (fs.State(), dir, name) == FoldersForData(e, d, old(fs.State()))
  {
    dir := Join(e.path, d.path);
    fs.CreateFolder(dir);
    name := if d.name.Some? then d.name.value else IntToString(fs.EntryCount(dir));
  }

  /** How the source reads the name: `data.name`, an attribute the Data class
      does not define, so the lookup raises AttributeError for every Data. */
  function NameLookupAsWritten(d: Data): (r: Result<Option<string>>)
    ensures r.Err?
  {
    Err(AttributeError("name"))
  }

  // ---------------------------------------------------------------------
  // Dispatch on the storage tag
  // ---------------------------------------------------------------------

  datatype Action = StoreImage | StoreCoordinatesImage | StoreString | StoreCoordinates | NoAction

  /** `save_result`'s if-chain over the tag list, in the source's order. */
  function Route(tag: string): Action {
    if tag == StorageTypes[0] then StoreImage
    else if tag == StorageTypes[2] || tag == StorageTypes[3] then StoreString
    else if tag == StorageTypes[4] then StoreCoordinates
    else if tag == StorageTypes[1] then StoreCoordinatesImage
    else NoAction
  }

  /** Each tag reaches the routine its meaning names, and exactly the tags a
      Data may carry reach one at all. */
  lemma RouteByMeaning(tag: string)
    ensures Route(tag) == StoreImage <==> tag == "I"
    ensures Route(tag) == StoreCoordinatesImage <==> tag == "CI"
    ensures Route(tag) == StoreString <==> tag == "S" || tag == "O"
    ensures Route(tag) == StoreCoordinates <==> tag == "C"
    ensures Route(tag) == NoAction <==> !IsStorageType(tag)
  {
  }

  /** As written, the chain reads `dades._STORAGES_TYPES`, an attribute the
      dades module does not define, so every call raises AttributeError. */
  function RouteAsWritten(tag: string): (r: Result<Action>)
    ensures r.Err? && r.error.AttributeError?
  {
    Err(AttributeError("_STORAGES_TYPES"))
  }

  /** Every Data the constructor accepts is refused by the dispatch as written
      and routed to a routine by the corrected one. */
  lemma DispatchAsWrittenRejectsValidData(payload: Payload, tag: string, path: string, name: Option<string>)
    requires NewData(payload, tag, path, name).Ok?
    ensures RouteAsWritten(NewData(payload, tag, path, name).value.storageType).Err?
    ensures Route(NewData(payload, tag, path, name).value.storageType) != NoAction
  {
  }

  // ---------------------------------------------------------------------
  // The save routines, as functions of the filesystem state
  // ---------------------------------------------------------------------

  /** `_save_img`: folders and name, the default extension, then the image. */
  function SaveImgSpec(e: Experiment, d: Data, dumps: map<string, Payload> -> string, s: FsState): (Result<()>, FsState) {
    var (t, dir, name) := FoldersForData(e, d, s);
    match Value(d, dumps)
      case Err(x) => (Err(x), t)
      case Ok(v) => (Ok(()), WriteTo(t, dir, WithDefaultExtension(name), ImageFile, v))
  }

  /** `_save_string`: folders and name, the file opened (created empty), then
      the text written; a payload that is not text fails after the open. */
  function SaveStringSpec(e: Experiment, d: Data, dumps: map<string, Payload> -> string, s: FsState): (Result<()>, FsState) {
    var (t, dir, name) := FoldersForData(e, d, s);
    var afterOpen := AddEntry(t, dir, name);
    match Value(d, dumps)
      case Err(x) => (Err(x), afterOpen)
      case Ok(v) =>
        if v.Text? then (Ok(()), WriteTo(t, dir, name, TextFile, v))
        else (Err(TypeError("write() argument must be str")), afterOpen)
  }

  /** open(path, "w") as `_save_string` calls it: the path is the folder
      itself, which `_create_folders_for_data` has just created, so `open`
      raises IsADirectoryError. */
  function OpenAsWritten(s: FsState, dir: string, name: string): (r: Result<FsState>)
    requires dir in s.dirs
    ensures r.Err? && r.error.IsADirectoryError?
  {
    Err(IsADirectoryError(dir))
  }

  /** The string routine as written always fails: the folder it opens was
      created a moment before. The corrected routine creates the file `name`
      inside that folder instead. */
  lemma StringOpenAsWrittenFails(e: Experiment, d: Data, s: FsState)
    ensures var (t, dir, name) := FoldersForData(e, d, s);
      OpenAsWritten(t, dir, name) == Err(IsADirectoryError(dir)) &&
      name in AddEntry(t, dir, name).dirs[dir]
  {
  }

  /** What np.savetxt receives as its file name. */
  datatype SavetxtTarget = PathTarget(p: string) | PairTarget(dir: string, name: string)

  /** np.savetxt accepts a path string and raises ValueError for a tuple. */
  function SavetxtFile(t: SavetxtTarget): (r: Result<string>)
    ensures r.Ok? <==> t.PathTarget?
  {
    match t
      case PathTarget(p) => Ok(p)
      case PairTarget(_, _) => Err(ValueError("fname must be a string or file handle"))
  }

  /** As written, `_save_coordinates` binds the (folder, name) pair returned by
      `_create_folders_for_data` to `path` and passes that pair to np.savetxt. */
  function CoordinatesTargetAsWritten(dir: string, name: string): SavetxtTarget {
    PairTarget(dir, name)
  }

  /** The as-written call always fails; the corrected one writes the file
      `name` inside the folder. */
  lemma CoordinatesTargetAsWrittenFails(dir: string, name: string)
    ensures SavetxtFile(CoordinatesTargetAsWritten(dir, name)).Err?
    ensures SavetxtFile(PathTarget(Join(dir, name))) == Ok(Join(dir, name))
  {
  }

  /** `_save_coordinates`: a payload that is not an array fails before any
      folder is created; otherwise folders and name, then the CSV text. */
  function SaveCoordinatesSpec(e: Experiment, d: Data, dumps: map<string, Payload> -> string, s: FsState): (Result<()>, FsState) {
    match Value(d, dumps)
      case Err(x) => (Err(x), s)
      case Ok(v) =>
        if !v.Array? then (Err(ValueError("Not a valid data for the coordinates.")), s)
        else
          var (t, dir, name) := FoldersForData(e, d, s);
          (Ok(()), WriteTo(t, dir, name, CsvFile, v))
  }

  /** The points of a coordinate payload: an array with at least two columns
      (row i gives the point (row[0], row[1])), or a list of pairs of numbers. */
  function PointsOf(p: Payload): Option<seq<DrawPoints.Point>> {
    match p
      case Array(g) =>
        if |g| == 0 || Columns(g) >= 2 then
          Some(seq(|g|, i requires 0 <= i < |g| => DrawPoints.Point(g[i][0], g[i][1])))
        else None
      case Tuple(items) =>
        if forall i :: 0 <= i < |items| ==> IsNumberPair(items[i]) then
          Some(seq(|items|, i requires 0 <= i < |items| => DrawPoints.Point(items[i].items[0].n, items[i].items[1].n)))
        else None
      case _ => None
  }

  predicate IsNumberPair(p: Payload) {
    p.Tuple? && |p.items| >= 2 && p.items[0].Number? && p.items[1].Number?
  }

  /** The image `_draw_points` returns, cell by cell. */
  function DrawnGrid(g: Grid, points: seq<DrawPoints.Point>, values: DrawPoints.Values, side: int): (r: Grid)
    requires DrawPoints.HasValueFor(values, |points|)
    ensures |r| == |g| && Columns(r) == Columns(g)
  {
    var cols := Columns(g);
    seq(|g|, i requires 0 <= i < |g| =>
      seq(cols, j requires 0 <= j < cols => DrawPoints.DrawnCell(g[i][j], points, values, side, |g|, cols, i, j)))
  }

  /** The overlay `_save_coordinates_image` draws: value 1, side 2. */
  const OverlayValue: int := 1
  const OverlaySide: int := 2

  /** `_save_coordinates_image`: the payload is unpacked as (coordinates,
      image), the points are drawn on a copy of the image, then folders and
      name, the default extension, and the drawn image. A payload of another
      shape fails before any folder is created. */
  function SaveCoordinatesImageSpec(e: Experiment, d: Data, dumps: map<string, Payload> -> string, s: FsState): (Result<()>, FsState) {
    match Value(d, dumps)
      case Err(x) => (Err(x), s)
      case Ok(v) =>
        if !(v.Tuple? && |v.items| == 2) then (Err(TypeError("cannot unpack into (coordinates, image)")), s)
        else match PointsOf(v.items[0])
          case None => (Err(TypeError("coordinates are not a list of points")), s)
          case Some(points) =>
            if !v.items[1].Array? then (Err(TypeError("the image is not an array")), s)
            else
              var drawn := DrawnGrid(v.items[1].grid, points, DrawPoints.Scalar(OverlayValue), OverlaySide);
              var (t, dir, name) := FoldersForData(e, d, s);
              (Ok(()), WriteTo(t, dir, WithDefaultExtension(name), ImageFile, Array(drawn)))
  }

  /** `save_result`, with the tag list read by meaning. */
  function SaveSpec(e: Experiment, d: Data, dumps: map<string, Payload> -> string, s: FsState): (Result<()>, FsState) {
    match Route(d.storageType)
      case StoreImage => SaveImgSpec(e, d, dumps, s)
      case StoreString => SaveStringSpec(e, d, dumps, s)
      case StoreCoordinates => SaveCoordinatesSpec(e, d, dumps, s)
      case StoreCoordinatesImage => SaveCoordinatesImageSpec(e, d, dumps, s)
      case NoAction => (Ok(()), s)
  }

  // ---------------------------------------------------------------------
  // Properties of saving
  // ---------------------------------------------------------------------

  /** A tag outside the list performs no action. */
  lemma UnknownTagChangesNothing(e: Experiment, d: Data, dumps: map<string, Payload> -> string, s: FsState)
    requires !IsStorageType(d.storageType)
    ensures SaveSpec(e, d, dumps, s) == (Ok(()), s)
  {
    RouteByMeaning(d.storageType);
  }

  /** A coordinates Data whose payload is not an array raises ValueError and
      leaves the filesystem as it was. */
  lemma CoordinatesNeedAnArray(e: Experiment, d: Data, dumps: map<string, Payload> -> string, s: FsState)
    requires d.storageType == "C" && !d.payload.Array?
    ensures SaveSpec(e, d, dumps, s) == (Err(ValueError("Not a valid data for the coordinates.")), s)
  {
    RouteByMeaning(d.storageType);
  }

  /** Every save that gets past its payload checks leaves the target folder in
      place, keeps every folder that existed with its entries, and records one
      write into that folder. */
  lemma SaveWritesIntoTargetFolder(e: Experiment, d: Data, dumps: map<string, Payload> -> string, s: FsState)
    requires SaveSpec(e, d, dumps, s).0.Ok? && IsStorageType(d.storageType)
    ensures var t := SaveSpec(e, d, dumps, s).1;
      Join(e.path, d.path) in t.dirs &&
      (forall p :: p in s.dirs ==> p in t.dirs && s.dirs[p] <= t.dirs[p]) &&
      |t.writes| == |s.writes| + 1 && t.writes[..|s.writes|] == s.writes
  {
    RouteByMeaning(d.storageType);
    var dir := Join(e.path, d.path);
    var (t, _, _) := FoldersForData(e, d, s);
    assert forall p :: p in s.dirs ==> p in t.dirs && s.dirs[p] == t.dirs[p];
  }

  /** Unnamed Data are named by the count of entries already in their folder:
      a string written into a folder holding n entries, none named str(n),
      lands in the file str(n), and the folder then holds n + 1 entries. */
  lemma UnnamedStringGetsEntryCount(e: Experiment, d: Data, dumps: map<string, Payload> -> string, s: FsState)
    requires d.storageType == "S" && d.payload.Text? && d.name.None?
    requires var dir := Join(e.path, d.path);
      dir in s.dirs && IntToString(|s.dirs[dir]|) !in s.dirs[dir]
    ensures var dir := Join(e.path, d.path);
      var n := |s.dirs[dir]|;
      var t := SaveSpec(e, d, dumps, s).1;
      SaveSpec(e, d, dumps, s).0.Ok? &&
      t.writes == s.writes + [WriteRequest(TextFile, Join(dir, IntToString(n)), d.payload)] &&
      |t.dirs[dir]| == n + 1
  {
    RouteByMeaning(d.storageType);
    var dir := Join(e.path, d.path);
    assert MakeDirs(s, dir) == s;
  }

  /** Three unnamed strings saved in turn into a new folder land in the files
      "0", "1" and "2". */
  lemma ThreeUnnamedStrings(e: Experiment, d1: Data, d2: Data, d3: Data,
                            dumps: map<string, Payload> -> string, s0: FsState)
    requires forall d :: d in [d1, d2, d3] ==> d.storageType == "S" && d.payload.Text? && d.name.None?
    requires d1.path == d2.path == d3.path
    requires Join(e.path, d1.path) !in s0.dirs
    ensures var s1 := SaveSpec(e, d1, dumps, s0).1;
      var s2 := SaveSpec(e, d2, dumps, s1).1;
      var s3 := SaveSpec(e, d3, dumps, s2).1;
      var dir := Join(e.path, d1.path);
      s3.writes == s0.writes + [WriteRequest(TextFile, Join(dir, "0"), d1.payload),
                                WriteRequest(TextFile, Join(dir, "1"), d2.payload),
                                WriteRequest(TextFile, Join(dir, "2"), d3.payload)]
  {
    assert d1 in [d1, d2, d3] && d2 in [d1, d2, d3] && d3 in [d1, d2, d3];
    RouteByMeaning("S");
    var dir := Join(e.path, d1.path);
    assert IntToString(0) == "0" && IntToString(1) == "1" && IntToString(2) == "2";
    var s1 := SaveSpec(e, d1, dumps, s0).1;
    assert s1.dirs[dir] == {"0"};
    var s2 := SaveSpec(e, d2, dumps, s1).1;
    assert s2.dirs[dir] == {"0", "1"};
    assert |s2.dirs[dir]| == 2;
  }

  /** An image is written under its explicit name, or under the entry count,
      with ".jpg" appended when the name lacks a three-character extension;
      for a name without newlines the written file always has one. */
  lemma ImageNameHasExtension(e: Experiment, d: Data, dumps: map<string, Payload> -> string, s: FsState)
    requires d.storageType == "I"
    requires d.name.Some? ==> '\n' !in d.name.value
    ensures var (t, dir, name) := FoldersForData(e, d, s);
      SaveSpec(e, d, dumps, s).1.writes ==
        s.writes + [WriteRequest(ImageFile, Join(dir, WithDefaultExtension(name)), d.payload)] &&
      HasExtension(WithDefaultExtension(name))
  {
    RouteByMeaning(d.storageType);
    var (t, dir, name) := FoldersForData(e, d, s);
    if d.name.None? {
      var n := |t.dirs[dir]|;
      assert '\n' !in IntToString(n) by {
        var str := IntToString(n);
        forall k | 0 <= k < |str| ensures str[k] != '\n' { }
      }
    }
    DefaultExtensionIdempotent(name);
  }

  // ---------------------------------------------------------------------
  // The save routines as methods on the filesystem
  // ---------------------------------------------------------------------

  method SaveImg(e: Experiment, d: Data, dumps: map<string, Payload> -> string, fs: FileSystem) returns (r: Result<()>)
    modifies fs
    ensures (r, fs.State()) == SaveImgSpec(e, d, dumps, old(fs.State()))
  {
    var dir, name := CreateFoldersForData(e, d, fs);
    var file := WithDefaultExtension(name);
    match Value(d, dumps)
      case Err(x) => r := Err(x);
      case Ok(v) =>
        fs.Write(dir, file, ImageFile, v);
        r := Ok(());
  }

  method SaveString(e: Experiment, d: Data, dumps: map<string, Payload> -> string, fs: FileSystem) returns (r: Result<()>)
    modifies fs
    ensures (r, fs.State()) == SaveStringSpec(e, d, dumps, old(fs.State()))
  {
    var dir, name := CreateFoldersForData(e, d, fs);
    ghost var t := fs.State();
    fs.Open(dir, name);
    match Value(d, dumps)
      case Err(x) => r := Err(x);
      case Ok(v) =>
        if v.Text? {
          fs.writes := fs.writes + [WriteRequest(TextFile, Join(dir, name), v)];
          assert fs.State() == WriteTo(t, dir, name, TextFile, v);
          r := Ok(());
        } else {
          r := Err(TypeError("write() argument must be str"));
        }
  }

  method SaveCoordinates(e: Experiment, d: Data, dumps: map<string, Payload> -> string, fs: FileSystem) returns (r: Result<()>)
    modifies fs
    ensures (r, fs.State()) == SaveCoordinatesSpec(e, d, dumps, old(fs.State()))
  {
    match Value(d, dumps)
      case Err(x) => r := Err(x);
      case Ok(v) =>
        if !v.Array? {
          r := Err(ValueError("Not a valid data for the coordinates."));
        } else {
          var dir, name := CreateFoldersForData(e, d, fs);
          fs.Write(dir, name, CsvFile, v);
          r := Ok(());
        }
  }

  /** Runs `_draw_points` on a grid: copies it into an array, draws, and reads
      the result back. */
  method DrawOnGrid(g: Grid, points: seq<DrawPoints.Point>, values: DrawPoints.Values, side: int) returns (drawn: Grid)
    requires DrawPoints.HasValueFor(values, |points|)
    requires DrawPoints.Indexable(points, side, |g|, Columns(g))
    ensures drawn == DrawnGrid(g, points, values, side)
  {
    var rows, cols := |g|, Columns(g);
    var img := new int[rows, cols]((i, j) requires 0 <= i < rows && 0 <= j < cols => g[i][j]);
    var mask := DrawPoints.Draw(img, points, values, side);
    var cells := seq(rows, i requires 0 <= i < rows reads mask =>
      seq(cols, j requires 0 <= j < cols reads mask => mask[i, j]));
    assert forall i :: 0 <= i < rows ==> cells[i] == DrawnGrid(g, points, values, side)[i];
    drawn := cells;
  }

  method SaveCoordinatesImage(e: Experiment, d: Data, dumps: map<string, Payload> -> string, fs: FileSystem) returns (r: Result<()>)
    modifies fs
    ensures (r, fs.State()) == SaveCoordinatesImageSpec(e, d, dumps, old(fs.State()))
  {
    match Value(d, dumps)
      case Err(x) => r := Err(x);
      case Ok(v) =>
        if !(v.Tuple? && |v.items| == 2) {
          r := Err(TypeError("cannot unpack into (coordinates, image)"));
        } else {
          match PointsOf(v.items[0])
            case None => r := Err(TypeError("coordinates are not a list of points"));
            case Some(points) =>
              if !v.items[1].Array? {
                r := Err(TypeError("the image is not an array"));
              } else {
                var drawn := DrawOnGrid(v.items[1].grid, points, DrawPoints.Scalar(OverlayValue), OverlaySide);
                var dir, name := CreateFoldersForData(e, d, fs);
                fs.Write(dir, WithDefaultExtension(name), ImageFile, Array(drawn));
                r := Ok(());
              }
        }
  }

  /** `save_result`: routes the Data by its tag; an unknown tag does nothing. */
  method SaveResult(e: Experiment, d: Data, dumps: map<string, Payload> -> string, fs: FileSystem) returns (r: Result<()>)
    modifies fs
    ensures (r, fs.State()) == SaveSpec(e, d, dumps, old(fs.State()))
  {
    match Route(d.storageType)
      case StoreImage => r := SaveImg(e, d, dumps, fs);
      case StoreString => r := SaveString(e, d, dumps, fs);
      case StoreCoordinates => r := SaveCoordinates(e, d, dumps, fs);
      case StoreCoordinatesImage => r := SaveCoordinatesImage(e, d, dumps, fs);
      case NoAction => r := Ok(());
  }
}

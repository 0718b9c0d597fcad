/**
 * The image-to-assignment driver: render a PDF layout to an image when
 * needed, extract the booths, save the coordinate tables, assemble the
 * optimizer's command line, run it, and remove the temporary files when it
 * succeeds. PDF rendering, the image processing, the temporary file names and
 * the child process arrive as parameters; the files the driver writes and
 * removes are kept in a `FileStore`.
 */
module ImagePipeline {
  import opened Common
  import opened Text
  import opened LayoutExtraction

  // ---------------------------------------------------------------------
  // Arguments
  // ---------------------------------------------------------------------

  /** The parsed command line; `--image` is required, the other flags have their defaults filled in. */
  datatype Args = Args(
    image: string,
    popFile: string,
    maxCompanies: int,
    plotFile: string,
    coordsOut: string,
    companiesJson: Option<string>,
    jsonOut: Option<string>,
    minArea: real,
    maxArea: real,
    invert: bool)

  /** Python truthiness of an optional string flag: given and non-empty. */
  predicate Given(flag: Option<string>)
  {
    flag.Some? && flag.value != ""
  }

  /** The layout is a PDF when its lower-cased path ends with ".pdf". */
  predicate IsPdf(image: string)
  {
    EndsWith(Lower(image), ".pdf")
  }

  // ---------------------------------------------------------------------
  // Files written and removed
  // ---------------------------------------------------------------------

  /** What the driver leaves in a file: a rendered PDF page, or a booth table in some format. */
  datatype Stored = RenderedPage | Table(format: TableFormat, rows: seq<DetectedBooth>)

  /** The files the driver has written, by path. */
  class FileStore {
    var files: map<string, Stored>

    constructor (initial: map<string, Stored>)
      ensures files == initial
    {
      files := initial;
    }

    /** Write (or overwrite) a file. */
    method Write(path: string, content: Stored)
      modifies this
      ensures files == old(files)[path := content]
    {
      files := files[path := content];
    }

    /** `os.remove`, with the `OSError` of a missing file swallowed. */
    method Remove(path: string)
      modifies this
      ensures files == old(files) - {path}
    {
      files := files - {path};
    }
  }

  /** The files left after removing `paths` one by one. */
  function RemoveAll(files: map<string, Stored>, paths: seq<string>): map<string, Stored>
  {
    if paths == [] then files
    else RemoveAll(files, paths[..|paths| - 1]) - {paths[|paths| - 1]}
  }

  /** A file survives the cleanup exactly when it is not on the list, and keeps its content. */
  lemma {:induction false} RemoveAllMeaning(files: map<string, Stored>, paths: seq<string>)
    ensures forall p :: p in RemoveAll(files, paths) <==> p in files && p !in paths
    ensures forall p :: p in RemoveAll(files, paths) ==> RemoveAll(files, paths)[p] == files[p]
  {
    if paths != [] {
      var q := paths[..|paths| - 1];
      RemoveAllMeaning(files, q);
      assert paths == q + [paths[|paths| - 1]];
    }
  }

  /** Lines 117-121: remove every cleanup path in order, ignoring missing files. */
  method RemovePaths(store: FileStore, paths: seq<string>)
    modifies store
    ensures store.files == RemoveAll(old(store.files), paths)
  {
    var k := 0;
    while k < |paths|
      invariant 0 <= k <= |paths|
      invariant store.files == RemoveAll(old(store.files), paths[..k])
    {
      assert paths[..k + 1][..k] == paths[..k];
      store.Remove(paths[k]);
      k := k + 1;
    }
    assert paths[..k] == paths;
  }

  // ---------------------------------------------------------------------
  // The optimizer command line
  // ---------------------------------------------------------------------

  /** The eight arguments every optimizer run starts with (lines 96-105). */
  function BaseCommand(executable: string, coordsPath: string, args: Args): seq<string>
  {
    [executable, "main.py", "--layout-file", coordsPath, "--max-companies", IntToDecimal(args.maxCompanies),
     "--plot-file", args.plotFile]
  }

  /**
   * The command of lines 96-111: the base arguments, then exactly one company
   * source, the JSON list when it is given and the popularity file otherwise,
   * then `--json-out` when it is given.
   */
  predicate CommandFor(cmd: seq<string>, executable: string, coordsPath: string, args: Args)
  {
    && |cmd| == (if Given(args.jsonOut) then 12 else 10)
    && cmd[..8] == BaseCommand(executable, coordsPath, args)
    && cmd[8..10] == (if Given(args.companiesJson) then ["--companies-json", args.companiesJson.value]
                      else ["--pop-file", args.popFile])
    && (Given(args.jsonOut) ==> cmd[10..] == ["--json-out", args.jsonOut.value])
  }

  /** Lines 96-111, extending the base arguments step by step. */
  method BuildCommand(executable: string, coordsPath: string, args: Args) returns (cmd: seq<string>)
    ensures CommandFor(cmd, executable, coordsPath, args)
    ensures cmd[1] == "main.py" && cmd[3] == coordsPath
  {
    cmd := [executable, "main.py", "--layout-file", coordsPath, "--max-companies", IntToDecimal(args.maxCompanies),
            "--plot-file", args.plotFile];
    if Given(args.companiesJson) {
      cmd := cmd + ["--companies-json", args.companiesJson.value];
    } else {
      cmd := cmd + ["--pop-file", args.popFile];
    }
    if Given(args.jsonOut) {
      cmd := cmd + ["--json-out", args.jsonOut.value];
    }
  }

  // ---------------------------------------------------------------------
  // main
  // ---------------------------------------------------------------------

  /** How a run ends: a PDF that could not be rendered, no booth found, a failed child, or success. */
  datatype Outcome = RenderFailed | NoBooths | ChildFailed(code: int) | Completed

  /**
   * Lines 79-82: a PDF is rendered and its page becomes both the image to
   * read and the first cleanup path; any other path is read as it is and
   * starts an empty cleanup list.
   */
  method PrepareImage(image: string, render: string -> Option<string>, store: FileStore)
    returns (imgPath: Option<string>, cleanup: seq<string>)
    modifies store
    ensures imgPath.None? <==> IsPdf(image) && render(image).None?
    ensures !IsPdf(image) ==> imgPath == Some(image) && cleanup == [] && store.files == old(store.files)
    ensures IsPdf(image) && render(image).Some? ==>
              && imgPath == render(image) && cleanup == [render(image).value]
              && store.files == old(store.files)[render(image).value := RenderedPage]
    ensures IsPdf(image) && render(image).None? ==> cleanup == [] && store.files == old(store.files)
  {
    cleanup := [];
    if IsPdf(image) {
      var rendered := render(image);
      if rendered.None? {
        return None, cleanup;
      }
      store.Write(rendered.value, RenderedPage);
      cleanup := cleanup + [rendered.value];
      return rendered, cleanup;
    }
    return Some(image), cleanup;
  }

  /**
   * The driver's `main` after argument parsing. `render` is the PDF renderer
   * (None when it fails), `detect` the image processing of the extractor,
   * `tempTable` the name of the temporary Excel file, and `run` the child
   * process, reporting its exit status. On success the temporary files listed
   * for cleanup are removed; on every failure they stay.
   */
  method RunPipeline(
    args: Args, executable: string, render: string -> Option<string>, detect: string -> seq<Contour>,
    tempTable: string, run: seq<string> -> int, store: FileStore)
    returns (outcome: Outcome, cmd: seq<string>, cleanup: seq<string>, booths: seq<DetectedBooth>)
    modifies store
    ensures outcome == RenderFailed <==> IsPdf(args.image) && render(args.image).None?
    ensures outcome == RenderFailed ==> store.files == old(store.files) && cleanup == []
    ensures outcome == NoBooths ==>
              && store.files == (if IsPdf(args.image) then old(store.files)[render(args.image).value := RenderedPage]
                                 else old(store.files))
              && cleanup == (if IsPdf(args.image) then [render(args.image).value] else [])
    ensures var imgPath := if IsPdf(args.image) then render(args.image) else Some(args.image);
      && (outcome != RenderFailed ==> imgPath.Some?)
      && (outcome == NoBooths <==> imgPath.Some? && KeptBooths(detect(imgPath.value), args.minArea, args.maxArea) == [])
      && (outcome.ChildFailed? || outcome.Completed? ==>
            && SortedByBooth(booths)
            && multiset(booths) == multiset(KeptBooths(detect(imgPath.value), args.minArea, args.maxArea))
            && cleanup == (if IsPdf(args.image) then [imgPath.value] else []) + [tempTable])
    ensures outcome.ChildFailed? || outcome.Completed? ==>
              && CommandFor(cmd, executable, tempTable, args)
              && (outcome == Completed <==> run(cmd) == 0)
              && (outcome.ChildFailed? ==> outcome.code == run(cmd))
    ensures outcome.ChildFailed? ==> store.files == Written(old(store.files), args, render, tempTable, booths)
    ensures outcome == Completed ==>
              store.files == RemoveAll(Written(old(store.files), args, render, tempTable, booths), cleanup)
  {
    cmd, booths := [], [];
    var imgPath;
    imgPath, cleanup := PrepareImage(args.image, render, store);
    if imgPath.None? {
      return RenderFailed, cmd, cleanup, booths;
    }
    var extracted := ExtractBooths(detect(imgPath.value), args.minArea, args.maxArea);
    if extracted.Failure? {
      return NoBooths, cmd, cleanup, booths;
    }
    booths := extracted.value;
    store.Write(args.coordsOut, Table(SaveFormat(args.coordsOut), booths));
    store.Write(tempTable, Table(Excel, booths));
    cleanup := cleanup + [tempTable];

    cmd := BuildCommand(executable, tempTable, args);
    var code := run(cmd);
    if code != 0 {
      return ChildFailed(code), cmd, cleanup, booths;
    }
    RemovePaths(store, cleanup);
    outcome := Completed;
  }

  /** The files present once the tables are saved: the rendered page if any, the coordinates table and the temporary table. */
  function Written(
    files: map<string, Stored>, args: Args, render: string -> Option<string>, tempTable: string,
    booths: seq<DetectedBooth>): map<string, Stored>
  {
    var withPage := if IsPdf(args.image) && render(args.image).Some? then files[render(args.image).value := RenderedPage] else files;
    withPage[args.coordsOut := Table(SaveFormat(args.coordsOut), booths)][tempTable := Table(Excel, booths)]
  }

  /**
   * Cleanup after a successful run removes exactly the rendered page (for a
   * PDF) and the temporary table; the coordinates table survives unless it
   * shares a path with one of them.
   */
  lemma CompletedCleanup(
    files: map<string, Stored>, args: Args, render: string -> Option<string>, tempTable: string,
    booths: seq<DetectedBooth>)
    requires IsPdf(args.image) ==> render(args.image).Some?
    ensures var cleanup := (if IsPdf(args.image) then [render(args.image).value] else []) + [tempTable];
      var after := RemoveAll(Written(files, args, render, tempTable, booths), cleanup);
      && tempTable !in after
      && (IsPdf(args.image) ==> render(args.image).value !in after)
      && (args.coordsOut !in cleanup ==> args.coordsOut in after && after[args.coordsOut] == Table(SaveFormat(args.coordsOut), booths))
      && (forall p :: p in files && p !in cleanup && p != args.coordsOut ==> p in after && after[p] == files[p])
  {
    var cleanup := (if IsPdf(args.image) then [render(args.image).value] else []) + [tempTable];
    var withPage := if IsPdf(args.image) then files[render(args.image).value := RenderedPage] else files;
    var coords := Table(SaveFormat(args.coordsOut), booths);
    assert Written(files, args, render, tempTable, booths) == withPage[args.coordsOut := coords][tempTable := Table(Excel, booths)];
    CleanupAfterWrites(withPage, args.coordsOut, coords, tempTable, Table(Excel, booths), cleanup);
    if IsPdf(args.image) {
      assert render(args.image).value in cleanup;
    }
  }

  /**
   * Removing a cleanup list that holds the temporary table, after the
   * coordinates and temporary tables are written: every listed path is gone,
   * an unlisted coordinates table keeps its content, and so does every other
   * unlisted file.
   */
  lemma CleanupAfterWrites(
    files: map<string, Stored>, coordsOut: string, coords: Stored, tempTable: string, temp: Stored, cleanup: seq<string>)
    requires tempTable in cleanup
    ensures var after := RemoveAll(files[coordsOut := coords][tempTable := temp], cleanup);
      && (forall p :: p in cleanup ==> p !in after)
      && (coordsOut !in cleanup ==> coordsOut in after && after[coordsOut] == coords)
      && (forall p :: p in files && p !in cleanup && p != coordsOut ==> p in after && after[p] == files[p])
  {
    RemoveAllMeaning(files[coordsOut := coords][tempTable := temp], cleanup);
  }
}

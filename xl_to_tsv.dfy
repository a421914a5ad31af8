/** xl2tsv.py: every tab of each spreadsheet (or only the tab named by
    `--tab`) written as a tab-separated file under the output directory,
    blank rows optionally dropped, or with `--tabnames` only the tab names
    printed.

    The file system is two maps: the readable spreadsheets by file name and
    the `.tsv` files written so far by path. A cell value is an opaque `V`;
    a missing cell (`NaN`) is `None`. */
module XlToTsv {
  import opened Util

  /** A data frame as `read_excel` returns it: column names and rows. */
  datatype Frame<V> = Frame(columns: seq<string>, rows: seq<seq<Option<V>>>)

  /** One tab of a workbook. `read_excel(name, None)` returns the tabs
      keyed by name, in workbook order. */
  datatype Sheet<V> = Sheet(name: string, frame: Frame<V>)

  type Workbook<V> = seq<Sheet<V>>

  /** The command line. `tab` is `None` when `--tab` is not given. */
  datatype Args = Args(inputs: seq<string>, path: string, tab: Option<string>,
                       tabnames: bool, noempty: bool, filename: bool)

  /** How the script ends: normally (`sys.exit(0)` or the end of the file),
      with the `FileNotFoundError` of `read_excel`, or with the `TypeError`
      of adding a bool to a string. */
  datatype Exit = Finished | FileNotFound(file: string) | TypeError

  // ----- Rows and frames -----

  /** A row `dropna(how="all")` removes: every cell missing. */
  predicate Blank<V>(row: seq<Option<V>>)
  {
    forall i :: 0 <= i < |row| ==> row[i].None?
  }

  predicate Kept<V>(row: seq<Option<V>>)
  {
    !Blank(row)
  }

  function DropBlank<V>(rows: seq<seq<Option<V>>>): seq<seq<Option<V>>>
  {
    Filter(Kept, rows)
  }

  /** `dropna(how="all")` removes exactly the blank rows and keeps the others
      in order: it works row by row and distributes over concatenation. */
  lemma DropBlankSound<V>(rows: seq<seq<Option<V>>>, more: seq<seq<Option<V>>>, row: seq<Option<V>>)
    ensures row in DropBlank(rows) <==> row in rows && !Blank(row)
    ensures DropBlank([row]) == if Blank(row) then [] else [row]
    ensures DropBlank(rows + more) == DropBlank(rows) + DropBlank(more)
  {
    if row in rows && !Blank(row) {
      FilterKeeps(Kept, rows, row);
    }
    FilterConcat(Kept, rows, more);
    assert Filter(Kept, [row]) == Filter(Kept, []) + (if Kept(row) then [row] else []) by {
      assert [row] == [] + [row];
    }
  }

  /** Dropping blank rows twice is dropping them once. */
  lemma {:induction false} DropBlankIdempotent<V>(rows: seq<seq<Option<V>>>)
    ensures DropBlank(DropBlank(rows)) == DropBlank(rows)
  {
    if |rows| > 0 {
      var init, last := rows[..|rows| - 1], rows[|rows| - 1];
      assert rows == init + [last];
      DropBlankIdempotent(init);
      DropBlankSound(init, [last], last);
      DropBlankSound(DropBlank(init), DropBlank([last]), last);
      DropBlankSound(DropBlank([last]), [], last);
    }
  }

  /** What is written for a frame: its rows without the blank ones under
      `--noempty`, its columns either way. */
  function Cleaned<V>(frame: Frame<V>, noempty: bool): Frame<V>
  {
    if noempty then frame.(rows := DropBlank(frame.rows)) else frame
  }

  // ----- Output names -----

  /** Lines 82-85: the file name up to its last `.`, or all of it, and `:`. */
  function FileBase(filename: string): string
  {
    match LastIndexOf(filename, '.')
    case None => filename + ":"
    case Some(i) => filename[..i] + ":"
  }

  /** The base ends in `:`; before it stands the whole name when the name
      has no `.`, and otherwise the part before a `.` that is the last. */
  lemma FileBaseSound(filename: string)
    ensures var b := FileBase(filename);
      |b| > 0 && b[|b| - 1] == ':' &&
      ('.' !in filename ==> b[..|b| - 1] == filename) &&
      ('.' in filename ==>
         |b| <= |filename| &&
         filename == b[..|b| - 1] + "." + filename[|b|..] && '.' !in filename[|b|..])
  {
    var b := FileBase(filename);
    match LastIndexOf(filename, '.')
    case None =>
      assert b[..|b| - 1] == filename;
    case Some(i) =>
      assert b[..|b| - 1] == filename[..i];
      assert filename == filename[..i] + "." + filename[i + 1..];
  }

  /** Lines 77 and 90: where a tab is written. */
  function OutputPath(path: string, filebase: string, tab: string): string
  {
    path + "/" + filebase + tab + ".tsv"
  }

  /** For one directory and base, distinct tabs go to distinct files. */
  lemma OutputPathInjective(path: string, filebase: string, t1: string, t2: string)
    ensures OutputPath(path, filebase, t1) == OutputPath(path, filebase, t2) <==> t1 == t2
  {
    if OutputPath(path, filebase, t1) == OutputPath(path, filebase, t2) {
      var pre := path + "/" + filebase;
      assert OutputPath(path, filebase, t1) == pre + t1 + ".tsv";
      assert OutputPath(path, filebase, t2) == pre + t2 + ".tsv";
      assert t1 == OutputPath(path, filebase, t1)[|pre|..|pre| + |t1|];
    }
  }

  // ----- Reading -----

  function SheetName<V>(s: Sheet<V>): string
  {
    s.name
  }

  /** `df.keys()`. */
  function SheetNames<V>(book: Workbook<V>): seq<string>
  {
    Map(SheetName, book)
  }

  /** `read_excel(name, tab)`: the tab with that name, if any. */
  function Lookup<V>(book: Workbook<V>, tab: string): (r: Option<Frame<V>>)
    ensures r.None? <==> tab !in SheetNames(book)
    ensures r.Some? ==> Sheet(tab, r.value) in book
  {
    if |book| == 0 then None
    else if book[0].name == tab then Some(book[0].frame)
    else
      assert SheetNames(book) == [book[0].name] + SheetNames(book[1..]);
      Lookup(book[1..], tab)
  }

  /** `if args.tab:` is false for a missing and for an empty tab name. */
  predicate TabMode(args: Args)
  {
    args.tab.Some? && args.tab.value != ""
  }

  // ----- The specification of one run -----

  /** Lines 86-90: the tabs written in workbook order, later ones replacing
      earlier files of the same name. */
  function WriteSheets<V>(files: map<string, Frame<V>>, path: string, filebase: string,
                          noempty: bool, sheets: seq<Sheet<V>>): map<string, Frame<V>>
  {
    if |sheets| == 0 then files
    else
      var s := sheets[|sheets| - 1];
      WriteSheets(files, path, filebase, noempty, sheets[..|sheets| - 1])
        [OutputPath(path, filebase, s.name) := Cleaned(s.frame, noempty)]
  }

  /** Lines 70-90 for one input file. */
  function ProcessFile<V>(args: Args, fs: map<string, Workbook<V>>,
                          files: map<string, Frame<V>>, filename: string): (map<string, Frame<V>>, Exit)
  {
    if filename !in fs then (files, FileNotFound(filename))
    else if TabMode(args) then
      match Lookup(fs[filename], args.tab.value)
      case None => (files, Finished)
      case Some(frame) => (files[OutputPath(args.path, "", args.tab.value) := Cleaned(frame, args.noempty)], Finished)
    else
      var filebase := if args.filename then FileBase(filename) else "";
      (WriteSheets(files, args.path, filebase, args.noempty, fs[filename]), Finished)
  }

  /** Lines 69-90: the input files in order, up to the first that cannot be
      read. */
  function ProcessFiles<V>(args: Args, fs: map<string, Workbook<V>>,
                           files: map<string, Frame<V>>, inputs: seq<string>): (map<string, Frame<V>>, Exit)
  {
    if |inputs| == 0 then (files, Finished)
    else
      var before := ProcessFiles(args, fs, files, inputs[..|inputs| - 1]);
      if before.1 != Finished then before
      else ProcessFile(args, fs, before.0, inputs[|inputs| - 1])
  }

  /** Lines 57-61: for each file, its name when there are several, then its
      tab names joined by tabs. */
  function TabNames<V>(fs: map<string, Workbook<V>>, many: bool, inputs: seq<string>): (seq<string>, Exit)
  {
    if |inputs| == 0 then ([], Finished)
    else
      var before := TabNames(fs, many, inputs[..|inputs| - 1]);
      var f := inputs[|inputs| - 1];
      if before.1 != Finished then before
      else
        var lines := before.0 + (if many then [f] else []);
        if f !in fs then (lines, FileNotFound(f))
        else (lines + [Join(SheetNames(fs[f]), "\t")], Finished)
  }

  /** The whole script without its lines 64-67: the files written, the
      lines printed and how it ends. */
  function Script<V>(args: Args, fs: map<string, Workbook<V>>, files: map<string, Frame<V>>)
    : (map<string, Frame<V>>, seq<string>, Exit)
  {
    if args.tabnames then
      var t := TabNames(fs, |args.inputs| > 1, args.inputs);
      (files, t.0, t.1)
    else
      var p := ProcessFiles(args, fs, files, args.inputs);
      (p.0, [], p.1)
  }

  /** The whole script as written: lines 64-67 add the flag's value `True`
      to a string before any file is read. */
  function ScriptAsWritten<V>(args: Args, fs: map<string, Workbook<V>>, files: map<string, Frame<V>>)
    : (map<string, Frame<V>>, seq<string>, Exit)
  {
    if !args.tabnames && args.filename then (files, [], TypeError)
    else Script(args, fs, files)
  }

  // ----- Properties -----

  /** A tab name that no tab of `sheets` has. */
  predicate Untouched<V>(path: string, filebase: string, sheets: seq<Sheet<V>>, k: string)
  {
    forall i :: 0 <= i < |sheets| ==> k != OutputPath(path, filebase, sheets[i].name)
  }

  /** In all-tabs mode each tab of the workbook lands, cleaned, in its own
      file; `WriteSheetsOthers` says that no other file changes. */
  lemma {:induction false} WriteSheetsWrites<V>(files: map<string, Frame<V>>, path: string, filebase: string,
                                                noempty: bool, sheets: seq<Sheet<V>>, i: nat)
    requires forall a, b :: 0 <= a < b < |sheets| ==> sheets[a].name != sheets[b].name
    requires i < |sheets|
    ensures var r := WriteSheets(files, path, filebase, noempty, sheets);
      OutputPath(path, filebase, sheets[i].name) in r &&
      r[OutputPath(path, filebase, sheets[i].name)] == Cleaned(sheets[i].frame, noempty)
  {
    var n := |sheets| - 1;
    if i < n {
      WriteSheetsWrites(files, path, filebase, noempty, sheets[..n], i);
      OutputPathInjective(path, filebase, sheets[i].name, sheets[n].name);
    }
  }

  /** A file that no tab of the workbook is written to keeps its contents. */
  lemma {:induction false} WriteSheetsOthers<V>(files: map<string, Frame<V>>, path: string, filebase: string,
                                                noempty: bool, sheets: seq<Sheet<V>>, k: string)
    requires Untouched(path, filebase, sheets, k)
    ensures var r := WriteSheets(files, path, filebase, noempty, sheets);
      (k in r <==> k in files) && (k in files ==> r[k] == files[k])
  {
    if |sheets| > 0 {
      var n := |sheets| - 1;
      assert k != OutputPath(path, filebase, sheets[n].name);
      WriteSheetsOthers(files, path, filebase, noempty, sheets[..n], k);
    }
  }

  /** A run over the inputs ends normally exactly when every input can be
      read, and otherwise with the first that cannot; a missing `--tab` is
      not an error. */
  lemma {:induction false} ProcessFilesExit<V>(args: Args, fs: map<string, Workbook<V>>,
                                               files: map<string, Frame<V>>, inputs: seq<string>)
    ensures var e := ProcessFiles(args, fs, files, inputs).1;
      (e == Finished <==> forall i :: 0 <= i < |inputs| ==> inputs[i] in fs) &&
      (e != Finished ==> exists j :: 0 <= j < |inputs| && e == FileNotFound(inputs[j]) &&
                          inputs[j] !in fs && forall i :: 0 <= i < j ==> inputs[i] in fs)
  {
    if |inputs| > 0 {
      var n := |inputs| - 1;
      ProcessFilesExit(args, fs, files, inputs[..n]);
      assert forall i :: 0 <= i < n ==> inputs[..n][i] == inputs[i];
    }
  }

  /** With `--tab` the file base is always empty, so `--filename` changes
      nothing, and only the one file for that tab can be written. */
  lemma {:induction false} TabModeIgnoresFilename<V>(args: Args, fs: map<string, Workbook<V>>,
                                                     files: map<string, Frame<V>>, inputs: seq<string>)
    requires TabMode(args)
    ensures ProcessFiles(args, fs, files, inputs) == ProcessFiles(args.(filename := !args.filename), fs, files, inputs)
    ensures var r := ProcessFiles(args, fs, files, inputs).0;
      forall k :: k != OutputPath(args.path, "", args.tab.value) ==>
        (k in r <==> k in files) && (k in files ==> r[k] == files[k])
  {
    if |inputs| > 0 {
      TabModeIgnoresFilename(args, fs, files, inputs[..|inputs| - 1]);
    }
  }

  /** With `--tab` the tab's file holds the tab of the last input that has
      one, when every input can be read. */
  lemma {:induction false} TabModeWritesLast<V>(args: Args, fs: map<string, Workbook<V>>,
                                                files: map<string, Frame<V>>, inputs: seq<string>, j: nat)
    requires TabMode(args)
    requires forall i :: 0 <= i < |inputs| ==> inputs[i] in fs
    requires j < |inputs| && args.tab.value in SheetNames(fs[inputs[j]])
    requires forall i :: j < i < |inputs| ==> args.tab.value !in SheetNames(fs[inputs[i]])
    ensures var r := ProcessFiles(args, fs, files, inputs).0;
      var key := OutputPath(args.path, "", args.tab.value);
      key in r && r[key] == Cleaned(Lookup(fs[inputs[j]], args.tab.value).value, args.noempty)
  {
    var n := |inputs| - 1;
    ProcessFilesExit(args, fs, files, inputs[..n]);
    assert forall i :: 0 <= i < n ==> inputs[..n][i] == inputs[i];
    if j < n {
      TabModeWritesLast(args, fs, files, inputs[..n], j);
    }
  }

  /** In all-tabs mode, when every input can be read, each tab of the last
      input is in its file, named with that input's base under `--filename`
      and with none otherwise. */
  lemma ScriptWritesLastFile<V>(args: Args, fs: map<string, Workbook<V>>, files: map<string, Frame<V>>, i: nat)
    requires !args.tabnames && !TabMode(args)
    requires |args.inputs| > 0 && forall j :: 0 <= j < |args.inputs| ==> args.inputs[j] in fs
    requires var book := fs[args.inputs[|args.inputs| - 1]];
      i < |book| && forall a, b :: 0 <= a < b < |book| ==> book[a].name != book[b].name
    ensures var f := args.inputs[|args.inputs| - 1];
      var key := OutputPath(args.path, if args.filename then FileBase(f) else "", fs[f][i].name);
      var r := Script(args, fs, files);
      r.2 == Finished && r.1 == [] && key in r.0 && r.0[key] == Cleaned(fs[f][i].frame, args.noempty)
  {
    var n := |args.inputs| - 1;
    var f := args.inputs[n];
    ProcessFilesExit(args, fs, files, args.inputs[..n]);
    assert forall j :: 0 <= j < n ==> args.inputs[..n][j] == args.inputs[j];
    var before := ProcessFiles(args, fs, files, args.inputs[..n]);
    WriteSheetsWrites(before.0, args.path, if args.filename then FileBase(f) else "", args.noempty, fs[f], i);
  }

  /** With `--tabnames` and every input readable, one line of tab names per
      input, each preceded by the input's name when there are several. */
  lemma {:induction false} TabNamesSound<V>(fs: map<string, Workbook<V>>, many: bool, inputs: seq<string>)
    requires forall j :: 0 <= j < |inputs| ==> inputs[j] in fs
    ensures var t := TabNames(fs, many, inputs);
      t.1 == Finished &&
      (many ==> |t.0| == 2 * |inputs| &&
                forall j :: 0 <= j < |inputs| ==>
                  t.0[2 * j] == inputs[j] && t.0[2 * j + 1] == Join(SheetNames(fs[inputs[j]]), "\t")) &&
      (!many ==> |t.0| == |inputs| &&
                 forall j :: 0 <= j < |inputs| ==> t.0[j] == Join(SheetNames(fs[inputs[j]]), "\t"))
  {
    if |inputs| > 0 {
      var n := |inputs| - 1;
      TabNamesSound(fs, many, inputs[..n]);
      assert forall j :: 0 <= j < n ==> inputs[..n][j] == inputs[j];
    }
  }

  /** A printed line splits back into the tab names, in workbook order, when
      no tab name holds a tab character. */
  lemma TabNamesLineParses<V>(book: Workbook<V>)
    requires |book| > 0
    requires forall j :: 0 <= j < |book| ==> '\t' !in book[j].name
    ensures SplitOn(Join(SheetNames(book), "\t"), '\t') == SheetNames(book)
  {
    SplitJoinRoundTrip(SheetNames(book), '\t');
  }

  /** Lines 64-67 as written: `--filename` stops the script with a
      `TypeError` before any input is read, where without those lines the
      tab is written under the file's base name. */
  lemma FilenameFlagCrashes()
    ensures var sheet := Frame(["a"], [[Some(1)]]);
      var args := Args(["data.xlsx"], "output", None, false, false, true);
      var fs := map["data.xlsx" := [Sheet("Sheet1", sheet)]];
      ScriptAsWritten(args, fs, map[]) == (map[], [], TypeError) &&
      Script(args, fs, map[]) == (map["output/data:Sheet1.tsv" := sheet], [], Finished)
  {
    var sheet := Frame(["a"], [[Some(1)]]);
    var args := Args(["data.xlsx"], "output", None, false, false, true);
    var fs := map["data.xlsx" := [Sheet("Sheet1", sheet)]];
    DataFileWrite(sheet);
    assert ProcessFiles(args, fs, map[], args.inputs) == (map["output/data:Sheet1.tsv" := sheet], Finished) by {
      assert args.inputs[..0] == [];
    }
  }

  /** The base name of `data.xlsx` is `data:`. */
  lemma DataFileBase()
    ensures FileBase("data.xlsx") == "data:"
  {
    var f := "data.xlsx";
    assert f[4] == '.' && '.' !in f[5..];
    assert f[..4] == "data";
  }

  /** All-tabs mode with `--filename` writes the one tab of `data.xlsx` to
      `output/data:Sheet1.tsv`. */
  lemma DataFileWrite<V>(sheet: Frame<V>)
    ensures WriteSheets(map[], "output", FileBase("data.xlsx"), false, [Sheet("Sheet1", sheet)]) == map["output/data:Sheet1.tsv" := sheet]
  {
    DataFileBase();
    var book := [Sheet("Sheet1", sheet)];
    assert book[..0] == [];
    assert OutputPath("output", "data:", "Sheet1") == "output/data:Sheet1.tsv";
  }

  // ----- The script's steps -----

  /** The script's view of the file system: the spreadsheets it can read,
      the `.tsv` files written so far and the lines printed. */
  class Session<V> {
    const fs: map<string, Workbook<V>>
    var files: map<string, Frame<V>>
    var stdout: seq<string>

    constructor(sources: map<string, Workbook<V>>, existing: map<string, Frame<V>>)
      ensures fs == sources && files == existing && stdout == []
    {
      fs := sources;
      files := existing;
      stdout := [];
    }

    /** Lines 57-61. */
    method PrintTabNames(inputs: seq<string>) returns (exit: Exit)
      modifies this
      ensures files == old(files)
      ensures var t := TabNames(fs, |inputs| > 1, inputs);
        stdout == old(stdout) + t.0 && exit == t.1
    {
      var many := |inputs| > 1;
      for i := 0 to |inputs|
        invariant files == old(files)
        invariant var t := TabNames(fs, many, inputs[..i]);
          stdout == old(stdout) + t.0 && t.1 == Finished
      {
        var f := inputs[i];
        assert inputs[..i + 1][..i] == inputs[..i];
        if many {
          stdout := stdout + [f];
        }
        if f !in fs {
          assert inputs[..i + 1] == inputs[..i] + [f];
          PrefixStops(fs, many, inputs, i + 1);
          return FileNotFound(f);
        }
        stdout := stdout + [Join(SheetNames(fs[f]), "\t")];
      }
      assert inputs[..|inputs|] == inputs;
      exit := Finished;
    }

    /** Lines 86-90: one file per tab, in workbook order. */
    method WriteTabs(path: string, filebase: string, noempty: bool, book: Workbook<V>)
      modifies this
      ensures stdout == old(stdout)
      ensures files == WriteSheets(old(files), path, filebase, noempty, book)
    {
      for i := 0 to |book|
        invariant stdout == old(stdout)
        invariant files == WriteSheets(old(files), path, filebase, noempty, book[..i])
      {
        assert book[..i + 1][..i] == book[..i];
        var output := book[i].frame;
        if noempty {
          output := output.(rows := DropBlank(output.rows));
        }
        files := files[OutputPath(path, filebase, book[i].name) := output];
      }
      assert book[..|book|] == book;
    }

    /** Lines 70-90 for one input. */
    method ConvertFile(args: Args, filename: string) returns (exit: Exit)
      modifies this
      ensures stdout == old(stdout)
      ensures (files, exit) == ProcessFile(args, fs, old(files), filename)
    {
      var filebase := "";
      if TabMode(args) {
        var tab := args.tab.value;
        if filename !in fs {
          return FileNotFound(filename);
        }
        var found := Lookup(fs[filename], tab);
        if found.Some? {
          var output := found.value;
          if args.noempty {
            output := output.(rows := DropBlank(output.rows));
          }
          files := files[OutputPath(args.path, filebase, tab) := output];
        }
        // a missing tab raises KeyError, which is passed over
        return Finished;
      }
      if filename !in fs {
        return FileNotFound(filename);
      }
      if args.filename {
        filebase := FileBase(filename);
      }
      WriteTabs(args.path, filebase, args.noempty, fs[filename]);
      exit := Finished;
    }

    /** Lines 69-90. */
    method Convert(args: Args) returns (exit: Exit)
      modifies this
      ensures stdout == old(stdout)
      ensures (files, exit) == ProcessFiles(args, fs, old(files), args.inputs)
    {
      var inputs := args.inputs;
      for i := 0 to |inputs|
        invariant stdout == old(stdout)
        invariant ProcessFiles(args, fs, old(files), inputs[..i]) == (files, Finished)
      {
        assert inputs[..i + 1][..i] == inputs[..i];
        exit := ConvertFile(args, inputs[i]);
        if exit != Finished {
          FilesPrefixStops(args, fs, old(files), inputs, i + 1);
          return;
        }
      }
      assert inputs[..|inputs|] == inputs;
      exit := Finished;
    }

    /** The script without lines 64-67. */
    method Run(args: Args) returns (exit: Exit)
      modifies this
      ensures |old(stdout)| <= |stdout| && stdout[..|old(stdout)|] == old(stdout)
      ensures (files, stdout[|old(stdout)|..], exit) == Script(args, fs, old(files))
    {
      ghost var printed := stdout;
      if args.tabnames {
        exit := PrintTabNames(args.inputs);
        assert stdout[|printed|..] == TabNames(fs, |args.inputs| > 1, args.inputs).0;
        return;
      }
      exit := Convert(args);
      assert stdout[|printed|..] == [];
    }

    /** The script as written, lines 64-67 included. */
    method RunAsWritten(args: Args) returns (exit: Exit)
      modifies this
      ensures |old(stdout)| <= |stdout| && stdout[..|old(stdout)|] == old(stdout)
      ensures (files, stdout[|old(stdout)|..], exit) == ScriptAsWritten(args, fs, old(files))
    {
      if !args.tabnames && args.filename {
        // `args.filename + ":"` with `args.filename == True`
        assert stdout[|stdout|..] == [];
        return TypeError;
      }
      exit := Run(args);
    }
  }

  /** Once a prefix of the inputs stops the listing, the whole run ends the
      same way. */
  lemma {:induction false} PrefixStops<V>(fs: map<string, Workbook<V>>, many: bool, inputs: seq<string>, i: nat)
    requires i <= |inputs| && TabNames(fs, many, inputs[..i]).1 != Finished
    ensures TabNames(fs, many, inputs) == TabNames(fs, many, inputs[..i])
  {
    if i < |inputs| {
      var n := |inputs| - 1;
      assert inputs[..n][..i] == inputs[..i];
      PrefixStops(fs, many, inputs[..n], i);
    } else {
      assert inputs[..i] == inputs;
    }
  }

  lemma {:induction false} FilesPrefixStops<V>(args: Args, fs: map<string, Workbook<V>>,
                                               files: map<string, Frame<V>>, inputs: seq<string>, i: nat)
    requires i <= |inputs| && ProcessFiles(args, fs, files, inputs[..i]).1 != Finished
    ensures ProcessFiles(args, fs, files, inputs) == ProcessFiles(args, fs, files, inputs[..i])
  {
    if i < |inputs| {
      var n := |inputs| - 1;
      assert inputs[..n][..i] == inputs[..i];
      FilesPrefixStops(args, fs, files, inputs[..n], i);
    } else {
      assert inputs[..i] == inputs;
    }
  }
}

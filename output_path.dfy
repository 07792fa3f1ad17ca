/** The output path resolvers of the command-line tool
    (watermark_cli_v2.py:193-219, on `pathlib`) and of the GUI
    (watermark_gui.py:659-678, on `os.path`), which share their naming and
    extension rules. The directory creation in between is done by the
    callers' models. */
module OutputPath {
  import opened Values
  import opened PyStr
  import opened Paths

  /** The new stem under the `naming_option` setting: `original` keeps it,
      `prefix` prepends `custom_prefix`, anything else appends
      `custom_suffix`. A prefix or suffix that is no string raises. */
  function NewStem(es: Settings, stem: string): (r: Result<string>)
    ensures "naming_option" !in es ==> r == Err(KeyMissing("naming_option"))
  {
    var naming :- Get(es, "naming_option");
    if naming == VStr("original") then Ok(stem)
    else if naming == VStr("prefix") then
      var prefix :- GetStr(es, "custom_prefix");
      Ok(prefix + stem)
    else
      var suffix :- GetStr(es, "custom_suffix");
      Ok(stem + suffix)
  }

  /** `.jpg` exactly when `output_format` is `JPEG`, `.png` otherwise. */
  function Extension(es: Settings): (r: Result<string>)
    ensures r.Ok? <==> "output_format" in es
    ensures r.Ok? ==> (r.value == ".jpg" <==> es["output_format"] == VStr("JPEG"))
    ensures r.Ok? ==> r.value in {".jpg", ".png"}
  {
    var format :- Get(es, "output_format");
    Ok(if format == VStr("JPEG") then ".jpg" else ".png")
  }

  // ------------------------------------------------ the command-line tool

  /** The output directory: `output_dir` when truthy (only a string makes a
      path), else `watermarked` beside the input. */
  function CliOutputDir(input: string, outputDir: Value): (r: Result<PurePath>)
    ensures r.Ok? ==> WellFormed(r.value)
  {
    if Truthy(outputDir) then
      if outputDir.VStr? then Ok(Parse(outputDir.s)) else Err(WrongType("output_dir"))
    else Ok(Div(Parent(Parse(input)), "watermarked"))
  }

  /** The new file name: the renamed `Path.stem` of the input plus the
      extension of the output format. */
  function CliOutputName(input: string, es: Settings): Result<string> {
    var newStem :- NewStem(es, Stem(Name(Parse(input))));
    var ext :- Extension(es);
    Ok(newStem + ext)
  }

  /** `WatermarkProcessor.generate_output_path(input, output_dir)`. */
  function CliOutputPath(input: string, outputDir: Value, es: Settings): Result<PurePath> {
    var dir :- CliOutputDir(input, outputDir);
    var name :- CliOutputName(input, es);
    Ok(Div(dir, name))
  }

  /** The naming settings of a well-typed export dictionary. */
  predicate NamingTyped(es: Settings) {
    && "naming_option" in es && "output_format" in es
    && "custom_prefix" in es && es["custom_prefix"].VStr?
    && "custom_suffix" in es && es["custom_suffix"].VStr?
  }

  /** The renaming rule on its own. */
  function Renamed(es: Settings, stem: string): string
    requires NamingTyped(es)
  {
    if es["naming_option"] == VStr("original") then stem
    else if es["naming_option"] == VStr("prefix") then es["custom_prefix"].s + stem
    else stem + es["custom_suffix"].s
  }

  function ExtensionOf(es: Settings): string
    requires "output_format" in es
  {
    if es["output_format"] == VStr("JPEG") then ".jpg" else ".png"
  }

  /** For well-typed settings the command-line output is the renamed stem
      with the format's extension, in `output_dir` when that is truthy and
      in `<input parent>/watermarked` otherwise; when the new stem holds no
      slash, the file name, its extension and its directory can be read
      back from the result, whatever the input's own extension was. */
  lemma {:induction false} CliOutputNaming(input: string, outputDir: Value, es: Settings)
    requires NamingTyped(es)
    requires !Truthy(outputDir) || outputDir.VStr?
    ensures var stem := Stem(Name(Parse(input)));
      var newName := Renamed(es, stem) + ExtensionOf(es);
      var dir := if Truthy(outputDir) then Parse(outputDir.s) else Div(Parent(Parse(input)), "watermarked");
      && CliOutputPath(input, outputDir, es) == Ok(Div(dir, newName))
      && ('/' !in Renamed(es, stem) ==>
            var out := Div(dir, newName);
            && Name(out) == newName
            && Parent(out) == dir
            && (Renamed(es, stem) != "" ==> Suffix(Name(out)) == ExtensionOf(es) && Stem(Name(out)) == Renamed(es, stem)))
  {
    var stem := Stem(Name(Parse(input)));
    var renamed := Renamed(es, stem);
    var ext := ExtensionOf(es);
    var newName := renamed + ext;
    var dir := if Truthy(outputDir) then Parse(outputDir.s) else Div(Parent(Parse(input)), "watermarked");
    assert NewStem(es, stem) == Ok(renamed);
    assert CliOutputName(input, es) == Ok(newName);
    if '/' !in renamed {
      ExtensionIsPart(renamed, ext);
      ParseSinglePart(newName);
      if renamed != "" {
        ExtensionSplits(renamed, ext);
      }
    }
  }

  /** A slash-free stem followed by one of the two extensions is a single
      path part. */
  lemma {:induction false} ExtensionIsPart(stem: string, ext: string)
    requires '/' !in stem && ext in {".jpg", ".png"}
    ensures IsPart(stem + ext)
  {
    var n := stem + ext;
    assert n[|n| - 1] == ext[3];
    forall k | 0 <= k < |n| ensures n[k] != '/' {
      if k < |stem| { assert n[k] == stem[k]; } else { assert n[k] == ext[k - |stem|]; }
    }
  }

  /** The extension's dot is the last dot of the name, and comes after a
      non-empty stem: pathlib splits exactly there. */
  lemma {:induction false} ExtensionSplits(stem: string, ext: string)
    requires stem != [] && ext in {".jpg", ".png"}
    ensures Suffix(stem + ext) == ext && Stem(stem + ext) == stem
  {
    var n := stem + ext;
    assert n[|stem|] == '.';
    assert forall k :: |stem| < k < |n| ==> n[k] == ext[k - |stem|] != '.';
    assert RFind(n, '.') == |stem|;
    assert n[|stem|..] == ext && n[..|stem|] == stem;
  }

  // ---------------------------------------------------------------- the GUI

  /** `WatermarkGUI.generate_output_path(image_info)`: `os.path.splitext` of
      the file name, the same renaming and extension, joined to
      `output_dir`. */
  function GuiOutputPath(filename: string, es: Settings): Result<string> {
    var (name, _) := Splitext(filename);
    var newStem :- NewStem(es, name);
    var ext :- Extension(es);
    var dir :- GetStr(es, "output_dir");
    Ok(OsJoin(dir, newStem + ext))
  }

  /** For well-typed settings the GUI output is `join(output_dir, new name)`;
      when `output_dir` is a non-empty directory without a trailing slash
      and the new stem is slash-free and not only dots, the directory, the
      file name, the new stem and the extension all read back through
      `dirname`, `basename` and `splitext`. */
  lemma {:induction false} GuiOutputNaming(filename: string, es: Settings)
    requires NamingTyped(es) && "output_dir" in es && es["output_dir"].VStr?
    ensures var renamed := Renamed(es, Splitext(filename).0);
      var ext := ExtensionOf(es);
      var dir := es["output_dir"].s;
      && GuiOutputPath(filename, es) == Ok(OsJoin(dir, renamed + ext))
      && (dir != "" && !EndsWith(dir, "/") && '/' !in renamed && (exists k :: 0 <= k < |renamed| && renamed[k] != '.') ==>
            var out := OsJoin(dir, renamed + ext);
            && Dirname(out) == dir
            && Basename(out) == renamed + ext
            && Splitext(out) == (dir + "/" + renamed, ext))
  {
    var renamed := Renamed(es, Splitext(filename).0);
    var ext := ExtensionOf(es);
    var dir := es["output_dir"].s;
    assert NewStem(es, Splitext(filename).0) == Ok(renamed);
    if dir != "" && !EndsWith(dir, "/") && '/' !in renamed && (exists k :: 0 <= k < |renamed| && renamed[k] != '.') {
      JoinReadBack(dir, renamed, ext);
    }
  }

  /** `join(dir, stem + ext)` read back through `dirname`, `basename` and
      `splitext`. */
  lemma {:induction false} JoinReadBack(dir: string, stem: string, ext: string)
    requires dir != "" && !EndsWith(dir, "/") && '/' !in stem && ext in {".jpg", ".png"}
    requires exists k :: 0 <= k < |stem| && stem[k] != '.'
    ensures OsJoin(dir, stem + ext) == dir + "/" + stem + ext
    ensures Dirname(dir + "/" + stem + ext) == dir
    ensures Basename(dir + "/" + stem + ext) == stem + ext
    ensures Splitext(dir + "/" + stem + ext) == (dir + "/" + stem, ext)
  {
    var n := stem + ext;
    ExtensionIsPart(stem, ext);
    assert n[0] != '/';
    assert !StartsWith(n, "/");
    var out := dir + "/" + n;
    assert out == dir + "/" + stem + ext;
    LastSlash(dir, n);
    DirnameOfJoin(dir);
    LastDot(dir + "/" + stem, ext);
    var w :| 0 <= w < |stem| && stem[w] != '.';
    assert out[|dir| + 1 + w] == stem[w];
  }

  lemma {:induction false} LastSlash(dir: string, n: string)
    requires '/' !in n
    ensures RFind(dir + "/" + n, '/') == |dir|
    ensures (dir + "/" + n)[|dir| + 1..] == n && (dir + "/" + n)[..|dir| + 1] == dir + "/"
  {
    var out := dir + "/" + n;
    assert out[|dir|] == '/';
    assert forall k :: |dir| < k < |out| ==> out[k] == n[k - |dir| - 1];
  }

  /** A slash-free, non-empty name joined to a directory that does not
      end in a slash lands directly inside that directory. */
  lemma {:induction false} JoinedFile(dir: string, n: string)
    requires dir != "" && dir[|dir| - 1] != '/' && '/' !in n && n != ""
    ensures OsJoin(dir, n) == dir + "/" + n
    ensures Dirname(dir + "/" + n) == dir && Basename(dir + "/" + n) == n
  {
    assert !StartsWith(n, "/") by { assert n[0] in n && n[..1] == [n[0]]; }
    assert !EndsWith(dir, "/") by { assert dir[|dir| - 1..] == [dir[|dir| - 1]]; }
    var out := dir + "/" + n;
    LastSlash(dir, n);
    DirnameOfJoin(dir);
    var head := out[..|dir| + 1];
    assert head[|dir| - 1] != '/';
  }

  lemma {:induction false} LastDot(head: string, ext: string)
    requires ext in {".jpg", ".png"}
    ensures RFind(head + ext, '.') == |head|
    ensures (head + ext)[..|head|] == head && (head + ext)[|head|..] == ext
  {
    var out := head + ext;
    assert out[|head|] == '.';
    assert forall k :: |head| < k < |out| ==> out[k] == ext[k - |head|] != '.';
  }

  lemma {:induction false} DirnameOfJoin(dir: string)
    requires dir != "" && dir[|dir| - 1] != '/'
    ensures RStripSlash(dir + "/") == dir
  {
    var h := dir + "/";
    assert h[..|h| - 1] == dir;
  }

  /** The two resolvers part ways on a name ending in a dot: pathlib sees no
      suffix in `photo.`, `splitext` does. */
  lemma StemAndSplitextDiffer()
    ensures Stem("photo.") == "photo." && Suffix("photo.") == ""
    ensures Splitext("photo.") == ("photo", ".")
  {
    assert "photo."[5] == '.' && "photo."[..5] == "photo" && "photo."[5..] == ".";
    assert RFind("photo.", '.') == 5;
    assert forall k :: 0 <= k < 6 ==> "photo."[k] != '/';
    assert RFind("photo.", '/') == -1;
    assert "photo."[0] != '.';
  }
}

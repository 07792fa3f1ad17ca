/** The GUI application's state and the operations that change it
    (watermark_gui.py:19-805): the image list, the two settings
    dictionaries, adding images, the settings updates from the form,
    template and saved-settings loading, and the batch export loop. The
    widgets, dialogs and files are inputs: what `Image.open` reports for
    each path, the parsed JSON documents, the directory a dialog returns,
    and one `ImageEnv` per exported image. */
module Gui {
  import opened Values
  import opened Paths
  import opened Compositor
  import opened OutputPath
  import opened ExifDate
  import opened Templates
  import Cli

  /** One entry of `self.images`. The `size` display string is not kept:
      it only formats `width` and `height`. */
  datatype ImageInfo = ImageInfo(path: string, filename: string, width: int, height: int, format: string)

  /** What `Image.open` reports about a file that opens. */
  datatype Header = Header(width: int, height: int, format: string)

  /** `[img['path'] for img in self.images]`. */
  function PathsOf(images: seq<ImageInfo>): (r: seq<string>)
    ensures |r| == |images|
    ensures forall k :: 0 <= k < |images| ==> r[k] == images[k].path
  {
    if images == [] then [] else PathsOf(images[..|images| - 1]) + [images[|images| - 1].path]
  }

  /** The entry `add_images` builds for a file that opened. */
  function InfoFor(path: string, h: Header): ImageInfo {
    ImageInfo(path, Basename(path), h.width, h.height, h.format)
  }

  // ----------------------------------------------------------- add_images

  /** The image list after `add_images(file_paths)` on `images`, where
      `headers[i]` is `None` when the i-th file fails to open: each path in
      turn is appended unless a path already listed, or it does not open. */
  function AddedImages(images: seq<ImageInfo>, filePaths: seq<string>, headers: seq<Option<Header>>): seq<ImageInfo>
    requires |headers| == |filePaths|
  {
    if filePaths == [] then images
    else
      var n := |filePaths| - 1;
      var prev := AddedImages(images, filePaths[..n], headers[..n]);
      if filePaths[n] !in PathsOf(prev) && headers[n].Some? then prev + [InfoFor(filePaths[n], headers[n].value)]
      else prev
  }

  /** The positions in `filePaths` each appended entry comes from. */
  function Sources(images: seq<ImageInfo>, filePaths: seq<string>, headers: seq<Option<Header>>): seq<int>
    requires |headers| == |filePaths|
  {
    if filePaths == [] then []
    else
      var n := |filePaths| - 1;
      var prev := AddedImages(images, filePaths[..n], headers[..n]);
      Sources(images, filePaths[..n], headers[..n])
      + (if filePaths[n] !in PathsOf(prev) && headers[n].Some? then [n] else [])
  }

  predicate NoDuplicatePaths(images: seq<ImageInfo>) {
    forall j, k :: 0 <= j < k < |images| ==> images[j].path != images[k].path
  }

  /** The existing entries are untouched, and every new one is built from
      a different input position, in input order, from a path that opened,
      so the list grows by at most `len(file_paths)`. */
  lemma {:induction false} AddedInOrder(images: seq<ImageInfo>, filePaths: seq<string>, headers: seq<Option<Header>>)
    requires |headers| == |filePaths|
    ensures var r := AddedImages(images, filePaths, headers);
      var src := Sources(images, filePaths, headers);
      && |r| == |images| + |src|
      && r[..|images|] == images
      && |src| <= |filePaths|
      && (forall j :: 0 <= j < |src| ==>
            && 0 <= src[j] < |filePaths| && headers[src[j]].Some?
            && r[|images| + j] == InfoFor(filePaths[src[j]], headers[src[j]].value))
      && (forall j, k :: 0 <= j < k < |src| ==> src[j] < src[k])
  {
    SourcesIncrease(images, filePaths, headers);
    AddedLength(images, filePaths, headers);
    forall j | 0 <= j < |Sources(images, filePaths, headers)|
      ensures |images| + j < |AddedImages(images, filePaths, headers)|
      ensures AddedImages(images, filePaths, headers)[|images| + j]
        == InfoFor(filePaths[Sources(images, filePaths, headers)[j]], headers[Sources(images, filePaths, headers)[j]].value)
    {
      AddedFromSource(images, filePaths, headers, j);
    }
  }

  /** The source positions are increasing positions of files that opened. */
  lemma {:induction false} SourcesIncrease(images: seq<ImageInfo>, filePaths: seq<string>, headers: seq<Option<Header>>)
    requires |headers| == |filePaths|
    ensures var src := Sources(images, filePaths, headers);
      && |src| <= |filePaths|
      && (forall j :: 0 <= j < |src| ==> 0 <= src[j] < |filePaths| && headers[src[j]].Some?)
      && (forall j, k :: 0 <= j < k < |src| ==> src[j] < src[k])
  {
    var src := Sources(images, filePaths, headers);
    SourcesLength(images, filePaths, headers);
    forall j | 0 <= j < |src| ensures 0 <= src[j] < |filePaths| && headers[src[j]].Some? {
      SourceAt(images, filePaths, headers, j);
    }
    forall j, k | 0 <= j < k < |src| ensures src[j] < src[k] {
      SourcesOrdered(images, filePaths, headers, j, k);
    }
  }

  /** One step of `Sources`: the position of the last file is added when
      it is appended. */
  lemma {:induction false} SourcesSnoc(images: seq<ImageInfo>, filePaths: seq<string>, headers: seq<Option<Header>>)
    requires |headers| == |filePaths| && filePaths != []
    ensures var n := |filePaths| - 1;
      var prev := AddedImages(images, filePaths[..n], headers[..n]);
      Sources(images, filePaths, headers) == Sources(images, filePaths[..n], headers[..n])
        + (if filePaths[n] !in PathsOf(prev) && headers[n].Some? then [n] else [])
  {
  }

  lemma {:induction false} SourcesLength(images: seq<ImageInfo>, filePaths: seq<string>, headers: seq<Option<Header>>)
    requires |headers| == |filePaths|
    ensures |Sources(images, filePaths, headers)| <= |filePaths|
  {
    if filePaths != [] {
      var n := |filePaths| - 1;
      SourcesLength(images, filePaths[..n], headers[..n]);
      SourcesSnoc(images, filePaths, headers);
    }
  }

  lemma {:induction false} SourceAt(images: seq<ImageInfo>, filePaths: seq<string>, headers: seq<Option<Header>>, j: int)
    requires |headers| == |filePaths| && 0 <= j < |Sources(images, filePaths, headers)|
    ensures var src := Sources(images, filePaths, headers);
      0 <= src[j] < |filePaths| && headers[src[j]].Some?
  {
    var n := |filePaths| - 1;
    var psrc := Sources(images, filePaths[..n], headers[..n]);
    SourcesSnoc(images, filePaths, headers);
    if j < |psrc| {
      SourceAt(images, filePaths[..n], headers[..n], j);
      assert headers[..n][psrc[j]] == headers[psrc[j]];
    }
  }

  lemma {:induction false} SourcesOrdered(images: seq<ImageInfo>, filePaths: seq<string>, headers: seq<Option<Header>>, j: int, k: int)
    requires |headers| == |filePaths| && 0 <= j < k < |Sources(images, filePaths, headers)|
    ensures Sources(images, filePaths, headers)[j] < Sources(images, filePaths, headers)[k]
  {
    var n := |filePaths| - 1;
    var psrc := Sources(images, filePaths[..n], headers[..n]);
    SourcesSnoc(images, filePaths, headers);
    if k < |psrc| {
      SourcesOrdered(images, filePaths[..n], headers[..n], j, k);
    } else {
      SourceAt(images, filePaths[..n], headers[..n], j);
    }
  }

  /** The old list is kept as a prefix, with one new entry per source. */
  lemma {:induction false} AddedLength(images: seq<ImageInfo>, filePaths: seq<string>, headers: seq<Option<Header>>)
    requires |headers| == |filePaths|
    ensures var r := AddedImages(images, filePaths, headers);
      |r| == |images| + |Sources(images, filePaths, headers)| && r[..|images|] == images
  {
    if filePaths != [] {
      var n := |filePaths| - 1;
      AddedLength(images, filePaths[..n], headers[..n]);
      var prev := AddedImages(images, filePaths[..n], headers[..n]);
      assert AddedImages(images, filePaths, headers)[..|images|] == prev[..|images|];
    }
  }

  /** The j-th new entry is built from the file at its source position. */
  lemma {:induction false} AddedFromSource(images: seq<ImageInfo>, filePaths: seq<string>, headers: seq<Option<Header>>, j: int)
    requires |headers| == |filePaths| && 0 <= j < |Sources(images, filePaths, headers)|
    ensures var r := AddedImages(images, filePaths, headers);
      var src := Sources(images, filePaths, headers);
      && 0 <= src[j] < |filePaths| && headers[src[j]].Some? && |images| + j < |r|
      && r[|images| + j] == InfoFor(filePaths[src[j]], headers[src[j]].value)
  {
    var n := |filePaths| - 1;
    var fp, hs := filePaths[..n], headers[..n];
    var prev := AddedImages(images, fp, hs);
    var psrc := Sources(images, fp, hs);
    AddedLength(images, fp, hs);
    if j < |psrc| {
      AddedFromSource(images, fp, hs, j);
      assert fp[psrc[j]] == filePaths[psrc[j]] && hs[psrc[j]] == headers[psrc[j]];
    }
  }

  /** No path is listed twice afterwards if none was before. */
  lemma {:induction false} AddedNoDuplicates(images: seq<ImageInfo>, filePaths: seq<string>, headers: seq<Option<Header>>)
    requires |headers| == |filePaths|
    requires NoDuplicatePaths(images)
    ensures NoDuplicatePaths(AddedImages(images, filePaths, headers))
  {
    if filePaths != [] {
      var n := |filePaths| - 1;
      AddedNoDuplicates(images, filePaths[..n], headers[..n]);
      var prev := AddedImages(images, filePaths[..n], headers[..n]);
      if filePaths[n] !in PathsOf(prev) && headers[n].Some? {
        var r := prev + [InfoFor(filePaths[n], headers[n].value)];
        forall j, k | 0 <= j < k < |r| ensures r[j].path != r[k].path {
          if k == |prev| {
            assert PathsOf(prev)[j] == prev[j].path;
          }
        }
      }
    }
  }

  /** Some input position holds `p` and opens. */
  predicate Opened(filePaths: seq<string>, headers: seq<Option<Header>>, p: string)
    requires |headers| == |filePaths|
  {
    exists i :: 0 <= i < |filePaths| && filePaths[i] == p && headers[i].Some?
  }

  lemma {:induction false} OpenedSnoc(filePaths: seq<string>, headers: seq<Option<Header>>, p: string)
    requires |headers| == |filePaths| > 0
    ensures var n := |filePaths| - 1;
      Opened(filePaths, headers, p) <==> Opened(filePaths[..n], headers[..n], p) || (filePaths[n] == p && headers[n].Some?)
  {
    var n := |filePaths| - 1;
    if Opened(filePaths, headers, p) {
      var i :| 0 <= i < |filePaths| && filePaths[i] == p && headers[i].Some?;
      if i < n {
        assert filePaths[..n][i] == p && headers[..n][i].Some?;
      }
    }
    if Opened(filePaths[..n], headers[..n], p) {
      var i :| 0 <= i < n && filePaths[..n][i] == p && headers[..n][i].Some?;
      assert filePaths[i] == p && headers[i].Some?;
    }
  }

  /** A path is listed afterwards exactly when it was listed before or is
      one of the inputs that opened. */
  lemma {:induction false} AddedMembers(images: seq<ImageInfo>, filePaths: seq<string>, headers: seq<Option<Header>>, p: string)
    requires |headers| == |filePaths|
    ensures p in PathsOf(AddedImages(images, filePaths, headers)) <==> p in PathsOf(images) || Opened(filePaths, headers, p)
  {
    if filePaths != [] {
      var n := |filePaths| - 1;
      AddedMembers(images, filePaths[..n], headers[..n], p);
      OpenedSnoc(filePaths, headers, p);
      var prev := AddedImages(images, filePaths[..n], headers[..n]);
      if filePaths[n] !in PathsOf(prev) && headers[n].Some? {
        assert PathsOf(prev + [InfoFor(filePaths[n], headers[n].value)]) == PathsOf(prev) + [filePaths[n]];
      }
    }
  }

  /** The reset of the current image is not limited to the first import:
      re-adding a listed image together with one new image gives a list as
      long as the input. */
  lemma {:induction false} ResetOnRepeatImport(a: ImageInfo, b: string, h: Header)
    requires b != a.path
    ensures AddedImages([a], [a.path, b], [Some(h), Some(h)]) == [a, InfoFor(b, h)]
  {
    var fp := [a.path, b];
    var hs := [Some(h), Some(h)];
    assert fp[..1] == [a.path] && hs[..1] == [Some(h)];
    assert fp[..1][..0] == [] && hs[..1][..0] == [];
    assert PathsOf([a]) == [a.path];
    assert AddedImages([a], fp[..1], hs[..1]) == [a];
  }

  // ------------------------------------------------------- settings form

  /** The five keys the form writes. */
  function FormValues(text: string, fontSize: int, color: string, opacity: int, position: string): (m: Settings)
    ensures m.Keys == {"text", "font_size", "color", "opacity", "position"}
  {
    map["text" := VStr(text), "font_size" := VInt(fontSize), "color" := VStr(color),
        "opacity" := VInt(opacity), "position" := VStr(position)]
  }

  /** `update_watermark_settings` overwrites exactly the five form keys
      with the form's values, and every other key keeps its value. */
  lemma {:induction false} FormUpdate(ws: Settings, text: string, fontSize: int, color: string, opacity: int, position: string)
    ensures var r := Update(ws, FormValues(text, fontSize, color, opacity, position));
      && r.Keys == ws.Keys + {"text", "font_size", "color", "opacity", "position"}
      && r["text"] == VStr(text) && r["font_size"] == VInt(fontSize) && r["color"] == VStr(color)
      && r["opacity"] == VInt(opacity) && r["position"] == VStr(position)
      && forall k :: k in ws && k !in {"text", "font_size", "color", "opacity", "position"} ==> r[k] == ws[k]
  {
  }

  // ------------------------------------------------------------ templates

  /** Whether a template was loaded, and why not. */
  datatype TemplateLoad = NoTemplates | Cancelled | Loaded | LoadFailed(error: Error)

  /** The file and the document `save_template` writes: the watermark
      settings alone, as `<name>.json` in `~/.watermark_templates`. */
  function GuiTemplateFile(home: string, name: string): string {
    OsJoin(OsJoin(home, ".watermark_templates"), name + ".json")
  }

  /** `load_template`'s merge: the whole parsed document goes into the
      watermark settings; a document that is not an object raises. */
  function GuiTemplateMerge(ws: Settings, doc: Option<Value>): (r: Result<Settings>)
    ensures doc.None? ==> r == Err(Unparseable)
    ensures doc.Some? && doc.value.VObj? ==> r == Ok(Update(ws, doc.value.fields))
    ensures doc.Some? && !doc.value.VObj? ==> r.Err?
  {
    if doc.None? then Err(Unparseable) else UpdateFrom(ws, "template", doc.value)
  }

  /** A template the GUI saved reads back as the settings it saved, into
      any settings with no key the saved ones lack. */
  lemma {:induction false} GuiTemplateRoundTrip(ws: Settings, ws0: Settings)
    requires ws0.Keys <= ws.Keys
    ensures GuiTemplateMerge(ws0, Some(VObj(ws))) == Ok(ws)
  {
    assert Update(ws0, ws) == ws;
  }

  /** A template the command-line tool saved does not restore its
      settings in the GUI: its three top-level keys land in the watermark
      settings and every existing key keeps its value. */
  lemma {:induction false} CliTemplateInGui(ws: Settings, cws: Settings, ces: Settings, now: string)
    ensures var r := GuiTemplateMerge(ws, Some(VObj(TemplateDocument(cws, ces, now))));
      && r.Ok?
      && r.value.Keys == ws.Keys + {"watermark", "export", "created_at"}
      && r.value["watermark"] == VObj(cws)
      && forall k :: k in ws && k !in {"watermark", "export", "created_at"} ==> r.value[k] == ws[k]
  {
  }

  /** Conversely a GUI template has no `watermark` or `export` section, so
      the command-line tool loads it without error and without change. */
  lemma {:induction false} GuiTemplateInCli(gws: Settings, ws: Settings, es: Settings)
    requires "watermark" !in gws && "export" !in gws
    ensures Cli.LoadTemplateInto(ws, es, Some(VObj(gws))) == Cli.LoadOutcome(ws, es, None)
  {
  }

  // ------------------------------------------------------- saved settings

  /** The document `save_settings` writes. */
  function SettingsDocument(ws: Settings, es: Settings): Value {
    VObj(map["watermark" := VObj(ws), "export" := VObj(es)])
  }

  /** `load_default_settings`: from an existing, parsed file that is an
      object, `update(settings.get('watermark', {}))` and then the same for
      `export`; any failure stops there and is swallowed, keeping what was
      already merged. */
  function MergeSaved(ws: Settings, es: Settings, exists_: bool, doc: Option<Value>): (Settings, Settings) {
    if !exists_ || doc.None? || !doc.value.VObj? then (ws, es)
    else
      var w := GetOr(doc.value.fields, "watermark", VObj(map[]));
      if !w.VObj? then (ws, es)
      else
        var e := GetOr(doc.value.fields, "export", VObj(map[]));
        if !e.VObj? then (Update(ws, w.fields), es)
        else (Update(ws, w.fields), Update(es, e.fields))
  }

  /** On an object document the GUI's saved-settings load gives the same
      settings as the command-line tool's template load, though one reads
      sections with `get` and the other with `in` and indexing. */
  lemma {:induction false} SavedMatchesCliLoad(ws: Settings, es: Settings, d: Settings)
    ensures var o := Cli.LoadTemplateInto(ws, es, Some(VObj(d)));
      MergeSaved(ws, es, true, Some(VObj(d))) == (o.ws, o.es)
  {
    assert Update(ws, map[]) == ws && Update(es, map[]) == es;
  }

  /** Settings saved on closing come back at the next start. */
  lemma {:induction false} SettingsRoundTrip(ws: Settings, es: Settings)
    requires DefaultWatermarkSettings().Keys <= ws.Keys && DefaultExportSettings().Keys <= es.Keys
    ensures MergeSaved(DefaultWatermarkSettings(), DefaultExportSettings(), true, Some(SettingsDocument(ws, es))) == (ws, es)
  {
    assert Update(DefaultWatermarkSettings(), ws) == ws;
    assert Update(DefaultExportSettings(), es) == es;
  }

  // ------------------------------------------------------------- export

  /** The text field's value that selects the EXIF date of each image. */
  const AutoDateLabel: string := "\U{81EA}\U{52A8}\U{65E5}\U{671F}"

  /** One exported image's saved file (or the exception that stopped it),
      and the `text` setting it leaves behind. */
  datatype ItemOutcome = ItemOutcome(saved: Result<Saved>, text: Value)

  type Saved = Cli.Saved
  type ImageEnv = Cli.ImageEnv

  /** The saving half of an export step: the output path, the directory
      creation (`os.makedirs('')` raises), the format and the save. */
  function SaveComposed(es: Settings, info: ImageInfo, image: Image, env: ImageEnv, composed: Result<Composition>): Result<Saved> {
    var content :- composed;
    var out :- GuiOutputPath(info.filename, es);
    var dir := Dirname(out);
    if dir == "" then Err(NoDirectory)
    else if !env.dirOk then Err(SaveFailed(dir))
    else
      var format :- Get(es, "output_format");
      var mode := if content.Drawn? then content.mode else image.mode;
      if format == VStr("JPEG") then
        var quality :- Get(es, "jpeg_quality");
        if !env.saveOk then Err(SaveFailed(out))
        else Ok(Cli.Saved(out, "JPEG", if mode == "RGBA" then "RGB" else mode, Some(quality), content))
      else if !env.saveOk then Err(SaveFailed(out))
      else Ok(Cli.Saved(out, "PNG", mode, None, content))
  }

  /** Whether, in auto-date mode, drawing the i-th image with its date
      raises. The date replaces the text, so the text left by earlier
      images plays no part. */
  predicate DateComposeRaises(ws: Settings, env: ImageEnv, today: string) {
    env.loaded.Some? && GuiCompose(ws["text" := VStr(ClassExifDate(env.exifTag, today))], env.loaded.value, env.textSize).Err?
  }

  /** One turn of the `export_thread` loop. In auto-date mode the text is
      swapped for the image's date around the drawing and put back only
      when the drawing returns. */
  function ExportStep(ws: Settings, es: Settings, info: ImageInfo, autoDate: bool, env: ImageEnv, today: string): ItemOutcome
    requires "text" in ws
  {
    if env.loaded.None? then ItemOutcome(Err(OpenFailed(info.path)), ws["text"])
    else if autoDate then
      var date := VStr(ClassExifDate(env.exifTag, today));
      var composed := GuiCompose(ws["text" := date], env.loaded.value, env.textSize);
      ItemOutcome(SaveComposed(es, info, env.loaded.value, env, composed), if composed.Ok? then ws["text"] else date)
    else
      var composed := GuiCompose(ws, env.loaded.value, env.textSize);
      ItemOutcome(SaveComposed(es, info, env.loaded.value, env, composed), ws["text"])
  }

  /** The text is restored after every image whose drawing returns; only a
      drawing that raised in auto-date mode leaves that image's date. */
  lemma {:induction false} ExportStepText(ws: Settings, es: Settings, info: ImageInfo, autoDate: bool, env: ImageEnv, today: string)
    requires "text" in ws
    ensures var o := ExportStep(ws, es, info, autoDate, env, today);
      && (autoDate && DateComposeRaises(ws, env, today) ==> o.text == VStr(ClassExifDate(env.exifTag, today)))
      && (!(autoDate && DateComposeRaises(ws, env, today)) ==> o.text == ws["text"])
  {
  }

  /** The saved files and the `text` setting after the loop over `images`. */
  datatype RunState = RunState(results: seq<Result<Saved>>, text: Value)

  function ExportRun(ws: Settings, es: Settings, images: seq<ImageInfo>, autoDate: bool, envs: seq<ImageEnv>, today: string): (s: RunState)
    requires "text" in ws && |envs| == |images|
    ensures |s.results| == |images|
  {
    if images == [] then RunState([], ws["text"])
    else
      var n := |images| - 1;
      var prev := ExportRun(ws, es, images[..n], autoDate, envs[..n], today);
      var o := ExportStep(ws["text" := prev.text], es, images[n], autoDate, envs[n], today);
      RunState(prev.results + [o.saved], o.text)
  }

  /** The number of items that raised no exception. */
  function CountOk(rs: seq<Result<Saved>>): (c: nat)
    ensures c <= |rs|
    ensures c == |rs| <==> forall k :: 0 <= k < |rs| ==> rs[k].Ok?
  {
    if rs == [] then 0
    else CountOk(rs[..|rs| - 1]) + (if rs[|rs| - 1].Ok? then 1 else 0)
  }

  /** The progress values `1, 2, ..., n`, set one after each image. */
  function ProgressTo(n: nat): (p: seq<int>)
    ensures |p| == n && forall k :: 0 <= k < n ==> p[k] == k + 1
  {
    if n == 0 then [] else ProgressTo(n - 1) + [n]
  }

  /** Counting one more result. */
  lemma {:induction false} CountOkSnoc(rs: seq<Result<Saved>>, r: Result<Saved>)
    ensures CountOk(rs + [r]) == CountOk(rs) + (if r.Ok? then 1 else 0)
  {
    assert (rs + [r])[..|rs|] == rs;
  }

  /** The text after the loop, defined without threading: the date of the
      last image whose dated drawing raised, or the original text. */
  function TextAfter(ws: Settings, images: seq<ImageInfo>, autoDate: bool, envs: seq<ImageEnv>, today: string): Value
    requires "text" in ws && |envs| == |images|
  {
    if images == [] then ws["text"]
    else
      var n := |images| - 1;
      if autoDate && DateComposeRaises(ws, envs[n], today) then VStr(ClassExifDate(envs[n].exifTag, today))
      else TextAfter(ws, images[..n], autoDate, envs[..n], today)
  }

  /** The text left at the end is the date of the last image whose dated
      drawing raised, or the original text, which outside auto-date mode
      never changes. */
  lemma {:induction false} ExportRunText(ws: Settings, es: Settings, images: seq<ImageInfo>, autoDate: bool, envs: seq<ImageEnv>, today: string)
    requires "text" in ws && |envs| == |images|
    ensures var s := ExportRun(ws, es, images, autoDate, envs, today);
      && s.text == TextAfter(ws, images, autoDate, envs, today)
      && (!autoDate ==> s.text == ws["text"])
  {
    if images != [] {
      var n := |images| - 1;
      ExportRunText(ws, es, images[..n], autoDate, envs[..n], today);
      var prev := ExportRun(ws, es, images[..n], autoDate, envs[..n], today);
      StepIgnoresText(ws, prev.text, es, images[n], autoDate, envs[n], today);
    }
  }

  /** Failures are isolated: each image's outcome is the one it has on its
      own, whatever came before it. */
  lemma {:induction false} ExportRunIsolated(ws: Settings, es: Settings, images: seq<ImageInfo>, autoDate: bool, envs: seq<ImageEnv>, today: string, i: int)
    requires "text" in ws && |envs| == |images| && 0 <= i < |images|
    ensures ExportRun(ws, es, images, autoDate, envs, today).results[i] == ExportStep(ws, es, images[i], autoDate, envs[i], today).saved
  {
    var n := |images| - 1;
    var prev := ExportRun(ws, es, images[..n], autoDate, envs[..n], today);
    if i < n {
      ExportRunIsolated(ws, es, images[..n], autoDate, envs[..n], today, i);
      assert images[..n][i] == images[i] && envs[..n][i] == envs[i];
    } else {
      if n > 0 {
        ExportRunText(ws, es, images[..n], autoDate, envs[..n], today);
      }
      StepIgnoresText(ws, prev.text, es, images[n], autoDate, envs[n], today);
    }
  }

  /** An export step only reads the text it is given when it does not
      replace it, which happens only outside auto-date mode, and there the
      text never changed. */
  lemma {:induction false} StepIgnoresText(ws: Settings, t: Value, es: Settings, info: ImageInfo, autoDate: bool, env: ImageEnv, today: string)
    requires "text" in ws
    requires !autoDate ==> t == ws["text"]
    ensures var o := ExportStep(ws["text" := t], es, info, autoDate, env, today);
      && o.saved == ExportStep(ws, es, info, autoDate, env, today).saved
      && (autoDate && DateComposeRaises(ws, env, today) ==> o.text == VStr(ClassExifDate(env.exifTag, today)))
      && (!(autoDate && DateComposeRaises(ws, env, today)) ==> o.text == t)
  {
    var date := VStr(ClassExifDate(env.exifTag, today));
    assert ws["text" := t]["text" := date] == ws["text" := date];
    if !autoDate {
      assert ws["text" := t] == ws;
    }
  }

  /** With no dated drawing raising, the export leaves the text as it was. */
  lemma {:induction false} TextRestored(ws: Settings, images: seq<ImageInfo>, autoDate: bool, envs: seq<ImageEnv>, today: string)
    requires "text" in ws && |envs| == |images|
    requires forall i :: 0 <= i < |envs| ==> !(autoDate && DateComposeRaises(ws, envs[i], today))
    ensures TextAfter(ws, images, autoDate, envs, today) == ws["text"]
  {
    if images != [] {
      var n := |images| - 1;
      assert forall i :: 0 <= i < n ==> envs[..n][i] == envs[i];
      TextRestored(ws, images[..n], autoDate, envs[..n], today);
    }
  }

  // ---------------------------------------------------------- the class

  class WatermarkGui {
    var images: seq<ImageInfo>
    var currentImageIndex: int
    var watermarkSettings: Settings
    var exportSettings: Settings

    /** The default keys are always present, since every update only adds
        keys; among them are the `text` the export swaps and the
        `output_dir` it reads. */
    predicate Valid()
      reads this
    {
      && DefaultWatermarkSettings().Keys <= watermarkSettings.Keys
      && DefaultExportSettings().Keys <= exportSettings.Keys
      && "text" in watermarkSettings && "output_dir" in exportSettings
    }

    /** `__init__`: no images, the default settings, then the saved
        settings file if there is one. */
    constructor(settingsExist: bool, settingsDoc: Option<Value>)
      ensures Valid()
      ensures images == [] && currentImageIndex == 0
      ensures (watermarkSettings, exportSettings)
              == MergeSaved(DefaultWatermarkSettings(), DefaultExportSettings(), settingsExist, settingsDoc)
    {
      images := [];
      currentImageIndex := 0;
      watermarkSettings := DefaultWatermarkSettings();
      exportSettings := DefaultExportSettings();
      new;
      LoadDefaultSettings(settingsExist, settingsDoc);
    }

    /** `add_images(file_paths)`: `headers[i]` is what opening the i-th
        file gives. The current image goes back to the first one when the
        list ends up as long as the input. */
    method AddImages(filePaths: seq<string>, headers: seq<Option<Header>>)
      requires |headers| == |filePaths|
      modifies this
      ensures images == AddedImages(old(images), filePaths, headers)
      ensures currentImageIndex == if |images| == |filePaths| then 0 else old(currentImageIndex)
      ensures watermarkSettings == old(watermarkSettings) && exportSettings == old(exportSettings)
    {
      for i := 0 to |filePaths|
        invariant images == AddedImages(old(images), filePaths[..i], headers[..i])
        invariant watermarkSettings == old(watermarkSettings) && exportSettings == old(exportSettings)
        invariant currentImageIndex == old(currentImageIndex)
      {
        var path := filePaths[i];
        assert filePaths[..i + 1][..i] == filePaths[..i] && headers[..i + 1][..i] == headers[..i];
        if path !in PathsOf(images) {
          if headers[i].Some? {
            var h := headers[i].value;
            images := images + [ImageInfo(path, Basename(path), h.width, h.height, h.format)];
          }
        }
      }
      assert filePaths[..|filePaths|] == filePaths && headers[..|headers|] == headers;
      if |images| == |filePaths| {
        currentImageIndex := 0;
      }
    }

    /** `update_watermark_settings()` with the form's current values. */
    method UpdateWatermarkSettings(text: string, fontSize: int, color: string, opacity: int, position: string)
      requires Valid()
      modifies this
      ensures Valid()
      ensures watermarkSettings == Update(old(watermarkSettings), FormValues(text, fontSize, color, opacity, position))
      ensures images == old(images) && exportSettings == old(exportSettings)
      ensures currentImageIndex == old(currentImageIndex)
    {
      watermarkSettings := Update(watermarkSettings, FormValues(text, fontSize, color, opacity, position));
    }

    /** `load_template()`: nothing happens without a template directory or
        when the file dialog is cancelled; otherwise the parsed document
        (`None` when unreadable) is merged into the watermark settings, or
        the failure is reported and nothing changes. */
    method LoadTemplate(dirExists: bool, fileChosen: bool, doc: Option<Value>) returns (outcome: TemplateLoad)
      requires Valid()
      modifies this
      ensures Valid()
      ensures !dirExists ==> outcome == NoTemplates && watermarkSettings == old(watermarkSettings)
      ensures dirExists && !fileChosen ==> outcome == Cancelled && watermarkSettings == old(watermarkSettings)
      ensures dirExists && fileChosen ==>
                var r := GuiTemplateMerge(old(watermarkSettings), doc);
                && (r.Ok? ==> outcome == Loaded && watermarkSettings == r.value)
                && (r.Err? ==> outcome == LoadFailed(r.error) && watermarkSettings == old(watermarkSettings))
      ensures images == old(images) && exportSettings == old(exportSettings)
      ensures currentImageIndex == old(currentImageIndex)
    {
      if !dirExists {
        return NoTemplates;
      }
      if !fileChosen {
        return Cancelled;
      }
      var merged := GuiTemplateMerge(watermarkSettings, doc);
      if merged.Err? {
        return LoadFailed(merged.error);
      }
      watermarkSettings := merged.value;
      return Loaded;
    }

    /** `load_default_settings()`, merging in place. */
    method LoadDefaultSettings(exists_: bool, doc: Option<Value>)
      requires Valid()
      modifies this
      ensures Valid()
      ensures (watermarkSettings, exportSettings) == MergeSaved(old(watermarkSettings), old(exportSettings), exists_, doc)
      ensures images == old(images) && currentImageIndex == old(currentImageIndex)
    {
      if !exists_ || doc.None? || !doc.value.VObj? {
        return;
      }
      var settings := doc.value.fields;
      var w := GetOr(settings, "watermark", VObj(map[]));
      if !w.VObj? {
        return;
      }
      watermarkSettings := Update(watermarkSettings, w.fields);
      var e := GetOr(settings, "export", VObj(map[]));
      if !e.VObj? {
        return;
      }
      exportSettings := Update(exportSettings, e.fields);
    }

    /** The `export_thread` loop over the image list: `results[i]` is what
        happened to the i-th image, `successCount` counts the images that
        raised nothing, and the progress bar is set to `i + 1` after each
        image in turn. */
    method ExportThread(autoDate: bool, envs: seq<ImageEnv>, today: string)
      returns (results: seq<Result<Saved>>, successCount: int, progress: seq<int>)
      requires Valid() && |envs| == |images|
      modifies this
      ensures Valid()
      ensures images == old(images) && exportSettings == old(exportSettings)
      ensures currentImageIndex == old(currentImageIndex)
      ensures var run := ExportRun(old(watermarkSettings), exportSettings, images, autoDate, envs, today);
        && results == run.results
        && watermarkSettings == old(watermarkSettings)["text" := run.text]
      ensures successCount == CountOk(results)
      ensures |progress| == |images| && forall k :: 0 <= k < |images| ==> progress[k] == k + 1
    {
      ghost var ws0 := watermarkSettings;
      results := [];
      successCount := 0;
      progress := [];
      for i := 0 to |images|
        invariant images == old(images) && exportSettings == old(exportSettings)
        invariant "text" in ws0 && |envs| == |images|
        invariant |results| == i
        invariant var run := ExportRun(ws0, exportSettings, images[..i], autoDate, envs[..i], today);
          results == run.results && watermarkSettings == ws0["text" := run.text]
        invariant successCount == CountOk(results)
        invariant progress == ProgressTo(i)
        invariant currentImageIndex == old(currentImageIndex)
      {
        results, successCount, progress := ExportNext(ws0, autoDate, envs, today, i, results, successCount, progress);
      }
      assert images[..|images|] == images && envs[..|envs|] == envs;
      assert watermarkSettings.Keys == ws0.Keys;
    }

    /** One turn of the `export_thread` loop with its bookkeeping: the
        image's result is appended, counted when it raised nothing, and
        the progress bar is set to `i + 1`. */
    method ExportNext(ghost ws0: Settings, autoDate: bool, envs: seq<ImageEnv>, today: string, i: nat,
                      results: seq<Result<Saved>>, successCount: int, progress: seq<int>)
      returns (results': seq<Result<Saved>>, successCount': int, progress': seq<int>)
      requires "text" in ws0 && |envs| == |images| && i < |images|
      requires var run := ExportRun(ws0, exportSettings, images[..i], autoDate, envs[..i], today);
        results == run.results && watermarkSettings == ws0["text" := run.text]
      requires successCount == CountOk(results) && progress == ProgressTo(i)
      modifies this
      ensures images == old(images) && exportSettings == old(exportSettings)
      ensures currentImageIndex == old(currentImageIndex)
      ensures var run := ExportRun(ws0, exportSettings, images[..i + 1], autoDate, envs[..i + 1], today);
        results' == run.results && watermarkSettings == ws0["text" := run.text]
      ensures successCount' == CountOk(results') && progress' == ProgressTo(i + 1)
    {
      ghost var ws := watermarkSettings;
      var saved := ExportImage(images[i], autoDate, envs[i], today);
      ExportAdvance(ws0, exportSettings, images, autoDate, envs, today, i, results, ws, saved, watermarkSettings);
      CountOkSnoc(results, saved);
      results' := results + [saved];
      successCount' := if saved.Ok? then successCount + 1 else successCount;
      progress' := progress + [i + 1];
    }

    /** The body of the `export_thread` loop for one image: open it, draw
        on it (in auto-date mode with its date in place of the text, put
        back only when the drawing returns) and save it. */
    method ExportImage(info: ImageInfo, autoDate: bool, env: ImageEnv, today: string) returns (saved: Result<Saved>)
      requires "text" in watermarkSettings
      modifies this
      ensures var o := ExportStep(old(watermarkSettings), exportSettings, info, autoDate, env, today);
        saved == o.saved && watermarkSettings == old(watermarkSettings)["text" := o.text]
      ensures images == old(images) && exportSettings == old(exportSettings)
      ensures currentImageIndex == old(currentImageIndex)
    {
      if env.loaded.None? {
        assert old(watermarkSettings)["text" := old(watermarkSettings)["text"]] == watermarkSettings;
        return Err(OpenFailed(info.path));
      }
      var img := env.loaded.value;
      var composed: Result<Composition>;
      if autoDate {
        var date := ClassExifDate(env.exifTag, today);
        var originalText := watermarkSettings["text"];
        watermarkSettings := watermarkSettings["text" := VStr(date)];
        composed := GuiCompose(watermarkSettings, img, env.textSize);
        if composed.Ok? {
          watermarkSettings := watermarkSettings["text" := originalText];
          assert watermarkSettings == old(watermarkSettings)["text" := old(watermarkSettings)["text"]];
        }
      } else {
        composed := GuiCompose(watermarkSettings, img, env.textSize);
        assert old(watermarkSettings)["text" := old(watermarkSettings)["text"]] == watermarkSettings;
      }
      saved := SaveComposed(exportSettings, info, img, env, composed);
    }

    /** `export_all()`: nothing without images; without an output
        directory the one `chosenDir` names is taken (the dialog returns ""
        when cancelled), and nothing happens if there is still none;
        otherwise the export loop runs. */
    method ExportAll(chosenDir: string, textVar: string, envs: seq<ImageEnv>, today: string)
      returns (started: bool, results: seq<Result<Saved>>, successCount: int, progress: seq<int>)
      requires Valid() && |envs| == |images|
      modifies this
      ensures Valid()
      ensures images == old(images) && currentImageIndex == old(currentImageIndex)
      ensures exportSettings ==
                if old(images) != [] && !Truthy(old(exportSettings)["output_dir"]) && chosenDir != ""
                then old(exportSettings)["output_dir" := VStr(chosenDir)] else old(exportSettings)
      ensures started <==> images != [] && Truthy(exportSettings["output_dir"])
      ensures !started ==> results == [] && successCount == 0 && progress == [] && watermarkSettings == old(watermarkSettings)
      ensures started ==>
                var run := ExportRun(old(watermarkSettings), exportSettings, images, textVar == AutoDateLabel, envs, today);
                && results == run.results
                && watermarkSettings == old(watermarkSettings)["text" := run.text]
                && successCount == CountOk(results)
                && |progress| == |images| && forall k :: 0 <= k < |images| ==> progress[k] == k + 1
    {
      if images == [] {
        return false, [], 0, [];
      }
      if !Truthy(exportSettings["output_dir"]) {
        if chosenDir != "" {
          exportSettings := exportSettings["output_dir" := VStr(chosenDir)];
        }
        if !Truthy(exportSettings["output_dir"]) {
          return false, [], 0, [];
        }
      }
      results, successCount, progress := ExportThread(textVar == AutoDateLabel, envs, today);
      started := true;
    }
  }

  /** One turn of the loop extends the run by that image's step. */
  lemma {:induction false} ExportAdvance(ws0: Settings, es: Settings, images: seq<ImageInfo>, autoDate: bool, envs: seq<ImageEnv>, today: string,
                      i: int, results: seq<Result<Saved>>, ws: Settings, saved: Result<Saved>, ws': Settings)
    requires "text" in ws0 && |envs| == |images| && 0 <= i < |images|
    requires var prev := ExportRun(ws0, es, images[..i], autoDate, envs[..i], today);
      results == prev.results && ws == ws0["text" := prev.text]
    requires var o := ExportStep(ws, es, images[i], autoDate, envs[i], today);
      saved == o.saved && ws' == ws["text" := o.text]
    ensures var run := ExportRun(ws0, es, images[..i + 1], autoDate, envs[..i + 1], today);
      results + [saved] == run.results && ws' == ws0["text" := run.text]
  {
    var prev := ExportRun(ws0, es, images[..i], autoDate, envs[..i], today);
    var o := ExportStep(ws, es, images[i], autoDate, envs[i], today);
    ExportRunSnoc(ws0, es, images, autoDate, envs, today, i);
    Overwrite(ws0, "text", prev.text, o.text);
  }

  /** The run over one more image is the run so far followed by that
      image's step. */
  lemma {:induction false} ExportRunSnoc(ws0: Settings, es: Settings, images: seq<ImageInfo>, autoDate: bool, envs: seq<ImageEnv>, today: string, i: int)
    requires "text" in ws0 && |envs| == |images| && 0 <= i < |images|
    ensures var prev := ExportRun(ws0, es, images[..i], autoDate, envs[..i], today);
      var o := ExportStep(ws0["text" := prev.text], es, images[i], autoDate, envs[i], today);
      ExportRun(ws0, es, images[..i + 1], autoDate, envs[..i + 1], today) == RunState(prev.results + [o.saved], o.text)
  {
    assert images[..i + 1][..i] == images[..i] && envs[..i + 1][..i] == envs[..i];
    assert images[..i + 1][i] == images[i] && envs[..i + 1][i] == envs[i];
  }

  /** Setting a key twice keeps the second value. */
  lemma {:induction false} Overwrite(m: Settings, k: string, a: Value, b: Value)
    ensures m[k := a][k := b] == m[k := b]
  {
  }
}

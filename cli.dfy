/** The command-line tool's processor (watermark_cli_v2.py:16-328): its
    two settings dictionaries, template loading, single-image processing
    and the batch loop. Opening, saving and the EXIF read are inputs, one
    `ImageEnv` per image. */
module Cli {
  import opened Values
  import opened PyStr
  import opened Paths
  import opened Compositor
  import opened OutputPath
  import opened ExifDate
  import opened Templates

  // -------------------------------------------------------- template load

  /** `sub in s` for strings: `sub` starts at some position of `s`. */
  predicate Contains(s: string, sub: string)
    decreases |s|
  {
    StartsWith(s, sub) || (s != [] && Contains(s[1..], sub))
  }

  /** `key in doc` for a parsed JSON document: a key of an object, an
      element of an array, a substring of a string; anything else raises. */
  function HasSection(doc: Value, key: string): Result<bool> {
    match doc
    case VObj(f) => Ok(key in f)
    case VArr(es) => Ok(VStr(key) in es)
    case VStr(s) => Ok(Contains(s, key))
    case _ => Err(WrongType(key))
  }

  /** `doc[key]` after a successful `key in doc`: only an object can be
      indexed by a string. */
  function Section(doc: Value, key: string): Result<Value> {
    if doc.VObj? && key in doc.fields then Ok(doc.fields[key]) else Err(WrongType(key))
  }

  /** The settings after an attempted load, and the error it raised, if any. */
  datatype LoadOutcome = LoadOutcome(ws: Settings, es: Settings, error: Option<Error>)

  /** `load_template` on settings `ws` and `es`: the `watermark` section is
      merged first, then the `export` section; a section that is missing is
      skipped, one that cannot be merged raises and stops the load there.
      `doc` is `None` when the file could not be read or parsed. */
  function LoadTemplateInto(ws: Settings, es: Settings, doc: Option<Value>): LoadOutcome {
    if doc.None? then LoadOutcome(ws, es, Some(Unparseable))
    else
      match HasSection(doc.value, "watermark")
      case Err(e) => LoadOutcome(ws, es, Some(e))
      case Ok(hasWatermark) =>
        var ws' := if hasWatermark then (var s := Section(doc.value, "watermark");
                                         if s.Err? then Err(s.error) else UpdateFrom(ws, "watermark", s.value))
                   else Ok(ws);
        if ws'.Err? then LoadOutcome(ws, es, Some(ws'.error))
        else
          match HasSection(doc.value, "export")
          case Err(e) => LoadOutcome(ws'.value, es, Some(e))
          case Ok(hasExport) =>
            var es' := if hasExport then (var s := Section(doc.value, "export");
                                          if s.Err? then Err(s.error) else UpdateFrom(es, "export", s.value))
                       else Ok(es);
            if es'.Err? then LoadOutcome(ws'.value, es, Some(es'.error))
            else LoadOutcome(ws'.value, es'.value, None)
  }

  /** The settings when merged sections are objects: every key of a present
      section is overwritten, every other key keeps its value, and a missing
      section leaves its dictionary as it was. */
  lemma {:induction false} LoadTemplateMerges(ws: Settings, es: Settings, d: Settings)
    requires "watermark" in d ==> d["watermark"].VObj?
    requires "export" in d ==> d["export"].VObj?
    ensures var o := LoadTemplateInto(ws, es, Some(VObj(d)));
      && o.error.None?
      && ("watermark" !in d ==> o.ws == ws)
      && ("watermark" in d ==>
            && o.ws.Keys == ws.Keys + d["watermark"].fields.Keys
            && (forall k :: k in d["watermark"].fields ==> o.ws[k] == d["watermark"].fields[k])
            && (forall k :: k in ws && k !in d["watermark"].fields ==> o.ws[k] == ws[k]))
      && ("export" !in d ==> o.es == es)
      && ("export" in d ==>
            && o.es.Keys == es.Keys + d["export"].fields.Keys
            && (forall k :: k in d["export"].fields ==> o.es[k] == d["export"].fields[k])
            && (forall k :: k in es && k !in d["export"].fields ==> o.es[k] == es[k]))
  {
  }

  /** Failures: an unreadable file changes nothing; a `watermark` section
      that is not an object changes nothing; an `export` section that is not
      an object fails after the `watermark` section was already merged. */
  lemma {:induction false} LoadTemplateFailures(ws: Settings, es: Settings, d: Settings)
    ensures LoadTemplateInto(ws, es, None) == LoadOutcome(ws, es, Some(Unparseable))
    ensures "watermark" in d && !d["watermark"].VObj? ==>
              LoadTemplateInto(ws, es, Some(VObj(d))) == LoadOutcome(ws, es, Some(WrongType("watermark")))
    ensures "watermark" in d && d["watermark"].VObj? && "export" in d && !d["export"].VObj? ==>
              LoadTemplateInto(ws, es, Some(VObj(d))) == LoadOutcome(ws + d["watermark"].fields, es, Some(WrongType("export")))
  {
  }

  /** Loading what `save_template` wrote gives back the saved settings,
      when the loading processor holds no key the saved one lacked (as is
      the case for any two processors, which all start from the defaults
      and only ever add keys). */
  lemma {:induction false} SaveLoadRoundTrip(ws: Settings, es: Settings, now: string, ws0: Settings, es0: Settings)
    requires ws0.Keys <= ws.Keys && es0.Keys <= es.Keys
    ensures LoadTemplateInto(ws0, es0, Some(VObj(TemplateDocument(ws, es, now)))) == LoadOutcome(ws, es, None)
  {
    var d := TemplateDocument(ws, es, now);
    LoadTemplateMerges(ws0, es0, d);
    var o := LoadTemplateInto(ws0, es0, Some(VObj(d)));
    assert o.ws == ws;
    assert o.es == es;
  }

  // ------------------------------------------------------ process_image

  /** What the outside world does for one image: whether it opens (and its
      size and mode), the EXIF date tag, the measured text size, whether
      the output directory can be created and whether saving succeeds. */
  datatype ImageEnv = ImageEnv(loaded: Option<Image>, exifTag: Option<string>, textSize: (int, int),
                               dirOk: bool, saveOk: bool)

  /** A saved image: where, in which format and mode, with which quality
      setting (JPEG only), holding which composition. */
  datatype Saved = Saved(path: string, format: string, mode: string, quality: Option<Value>, content: Composition)

  /** The steps of `process_image` before its exceptions are wrapped. */
  function ProcessSteps(ws: Settings, es: Settings, input: string, autoDate: bool, env: ImageEnv, today: string): Result<Saved> {
    if env.loaded.None? then Err(OpenFailed(input))
    else
      var image := env.loaded.value;
      var text := if autoDate then Some(VStr(ClassExifDate(env.exifTag, today))) else None;
      var content :- CliCompose(ws, image, text, env.textSize);
      var dir :- CliOutputDir(input, GetOr(es, "output_dir", VNull));
      if !env.dirOk then Err(SaveFailed(Str(dir)))
      else
        var name :- CliOutputName(input, es);
        var out := Str(Div(dir, name));
        var format :- Get(es, "output_format");
        var mode := if content.Drawn? then content.mode else image.mode;
        if format == VStr("JPEG") then
          var quality :- Get(es, "jpeg_quality");
          if !env.saveOk then Err(SaveFailed(out))
          else Ok(Saved(out, "JPEG", if mode == "RGBA" then "RGB" else mode, Some(quality), content))
        else if !env.saveOk then Err(SaveFailed(out))
        else Ok(Saved(out, "PNG", mode, None, content))
  }

  /** `WatermarkProcessor.process_image(input, None, auto_date)`: every
      exception comes out wrapped with the input path. */
  function ProcessImage(ws: Settings, es: Settings, input: string, autoDate: bool, env: ImageEnv, today: string): (r: Result<Saved>)
    ensures r.Err? ==> r.error.ProcessFailed? && r.error.input == input
    ensures r.Ok? ==> r == ProcessSteps(ws, es, input, autoDate, env, today)
  {
    var r := ProcessSteps(ws, es, input, autoDate, env, today);
    if r.Err? then Err(ProcessFailed(input, r.error)) else r
  }

  /** A processed image is saved at the path `generate_output_path` gives,
      in the format `output_format` names, keeps the input's mode except
      that a JPEG is never RGBA, and carries the composition of the
      resolved text: the normalised EXIF date in auto-date mode, the `text`
      setting otherwise. */
  lemma {:induction false} ProcessedImage(ws: Settings, es: Settings, input: string, autoDate: bool, env: ImageEnv, today: string)
    requires ProcessImage(ws, es, input, autoDate, env, today).Ok?
    ensures var saved := ProcessImage(ws, es, input, autoDate, env, today).value;
      var text := if autoDate then Some(VStr(ClassExifDate(env.exifTag, today))) else None;
      && env.loaded.Some? && env.dirOk && env.saveOk
      && CliOutputPath(input, GetOr(es, "output_dir", VNull), es).Ok?
      && saved.path == Str(CliOutputPath(input, GetOr(es, "output_dir", VNull), es).value)
      && CliCompose(ws, env.loaded.value, text, env.textSize) == Ok(saved.content)
      && (saved.format == "JPEG" <==> es["output_format"] == VStr("JPEG"))
      && (saved.format == "JPEG" ==> saved.mode != "RGBA" && saved.quality == Some(es["jpeg_quality"]))
      && (saved.format != "JPEG" ==> saved.mode == env.loaded.value.mode)
      && (saved.format == "JPEG" && env.loaded.value.mode != "RGBA" ==> saved.mode == env.loaded.value.mode)
  {
    var saved := ProcessSteps(ws, es, input, autoDate, env, today).value;
    var image := env.loaded.value;
    var text := if autoDate then Some(VStr(ClassExifDate(env.exifTag, today))) else None;
    var composed := CliCompose(ws, image, text, env.textSize);
    assert composed.Ok?;
    var content := composed.value;
    var od := GetOr(es, "output_dir", VNull);
    var dir := CliOutputDir(input, od);
    assert dir.Ok? && env.dirOk;
    var name := CliOutputName(input, es);
    assert name.Ok?;
    assert CliOutputPath(input, od, es) == Ok(Div(dir.value, name.value));
    var format := Get(es, "output_format");
    assert format.Ok? && format.value == es["output_format"];
    assert env.saveOk && saved.path == Str(Div(dir.value, name.value)) && saved.content == content;
    assert content.Drawn? ==> content.mode == image.mode by {
      var style := CliStyle(ws, image, text, env.textSize);
      if content.Drawn? {
        assert style.Ok? && style.value.Some?;
      }
    }
  }


  // ---------------------------------------------------------- the batch

  /** One entry of the list `process_batch` returns. */
  datatype BatchResult = Success(input: string, output: string) | Failure(input: string, error: Error)

  function ResultFor(input: string, r: Result<Saved>): (b: BatchResult)
    ensures b.input == input
    ensures b.Success? <==> r.Ok?
    ensures r.Ok? ==> b == Success(input, r.value.path)
    ensures r.Err? ==> b == Failure(input, r.error)
  {
    if r.Ok? then Success(input, r.value.path) else Failure(input, r.error)
  }

  /** The results of a batch, one per input in order. */
  function BatchResults(ws: Settings, es: Settings, inputs: seq<string>, autoDate: bool, envs: seq<ImageEnv>, today: string): (rs: seq<BatchResult>)
    requires |envs| == |inputs|
    ensures |rs| == |inputs|
  {
    if inputs == [] then []
    else
      var n := |inputs| - 1;
      BatchResults(ws, es, inputs[..n], autoDate, envs[..n], today)
      + [ResultFor(inputs[n], ProcessImage(ws, es, inputs[n], autoDate, envs[n], today))]
  }

  /** Each input's result is its own image's outcome, so one failure does
      not affect the others. */
  lemma {:induction false} BatchResultsAt(ws: Settings, es: Settings, inputs: seq<string>, autoDate: bool, envs: seq<ImageEnv>, today: string, i: int)
    requires |envs| == |inputs| && 0 <= i < |inputs|
    ensures BatchResults(ws, es, inputs, autoDate, envs, today)[i]
            == ResultFor(inputs[i], ProcessImage(ws, es, inputs[i], autoDate, envs[i], today))
  {
    var n := |inputs| - 1;
    if i < n {
      BatchResultsAt(ws, es, inputs[..n], autoDate, envs[..n], today, i);
    }
  }

  /** A success in a batch names the file `generate_output_path` gives for
      its input; a failure carries the wrapped error of that input. */
  lemma {:induction false} BatchEntryOutcome(ws: Settings, es: Settings, inputs: seq<string>, autoDate: bool, envs: seq<ImageEnv>, today: string, i: int)
    requires |envs| == |inputs| && 0 <= i < |inputs|
    ensures var b := BatchResults(ws, es, inputs, autoDate, envs, today)[i];
      && b.input == inputs[i]
      && (b.Success? ==> CliOutputPath(inputs[i], GetOr(es, "output_dir", VNull), es).Ok?
                         && b.output == Str(CliOutputPath(inputs[i], GetOr(es, "output_dir", VNull), es).value))
      && (b.Failure? ==> b.error.ProcessFailed? && b.error.input == inputs[i])
  {
    BatchResultsAt(ws, es, inputs, autoDate, envs, today, i);
    if ProcessImage(ws, es, inputs[i], autoDate, envs[i], today).Ok? {
      ProcessedImage(ws, es, inputs[i], autoDate, envs[i], today);
    }
  }

  /** The results for one more input are the results so far followed by
      that input's. */
  lemma {:induction false} BatchResultsSnoc(ws: Settings, es: Settings, inputs: seq<string>, autoDate: bool,
                                            envs: seq<ImageEnv>, today: string, i: int)
    requires |envs| == |inputs| && 0 <= i < |inputs|
    ensures BatchResults(ws, es, inputs[..i + 1], autoDate, envs[..i + 1], today)
      == BatchResults(ws, es, inputs[..i], autoDate, envs[..i], today)
         + [ResultFor(inputs[i], ProcessImage(ws, es, inputs[i], autoDate, envs[i], today))]
  {
    assert inputs[..i + 1][..i] == inputs[..i] && envs[..i + 1][..i] == envs[..i];
    assert inputs[..i + 1][i] == inputs[i] && envs[..i + 1][i] == envs[i];
  }

  /** The progress calls a batch makes once `results` are in: `(i + 1,
      total, input)` after each success, none when no callback was given. */
  function ProgressCalls(inputs: seq<string>, results: seq<BatchResult>, hasCallback: bool): seq<(int, int, string)>
    requires |results| <= |inputs|
  {
    if results == [] || !hasCallback then []
    else
      var n := |results|;
      ProgressCalls(inputs, results[..n - 1], hasCallback)
      + (if results[n - 1].Success? then [(n, |inputs|, inputs[n - 1])] else [])
  }

  /** One more result adds a call exactly when it is a success and a
      callback was given. */
  lemma {:induction false} ProgressCallsSnoc(inputs: seq<string>, results: seq<BatchResult>, r: BatchResult, hasCallback: bool)
    requires |results| < |inputs|
    ensures ProgressCalls(inputs, results + [r], hasCallback)
      == ProgressCalls(inputs, results, hasCallback)
         + (if r.Success? && hasCallback then [(|results| + 1, |inputs|, inputs[|results|])] else [])
  {
    assert (results + [r])[..|results|] == results;
  }

  /** Progress calls report only successes, each with its own position and
      the batch size, and there is at most one call per result. */
  lemma {:induction false} ProgressReportsSuccesses(inputs: seq<string>, results: seq<BatchResult>, hasCallback: bool)
    requires |results| <= |inputs|
    ensures var calls := ProgressCalls(inputs, results, hasCallback);
      && |calls| <= |results|
      && (forall c :: 0 <= c < |calls| ==>
            1 <= calls[c].0 <= |results| && calls[c].1 == |inputs|
            && results[calls[c].0 - 1].Success? && calls[c].2 == inputs[calls[c].0 - 1])
  {
    var n := |results|;
    if n > 0 && hasCallback {
      var init := results[..n - 1];
      ProgressReportsSuccesses(inputs, init, hasCallback);
      var prev := ProgressCalls(inputs, init, hasCallback);
      var calls := ProgressCalls(inputs, results, hasCallback);
      forall c | 0 <= c < |calls|
        ensures 1 <= calls[c].0 <= n && calls[c].1 == |inputs|
        ensures results[calls[c].0 - 1].Success? && calls[c].2 == inputs[calls[c].0 - 1]
      {
        if c < |prev| {
          assert calls[c] == prev[c];
          assert init[prev[c].0 - 1] == results[prev[c].0 - 1];
        }
      }
    }
  }

  /** The calls come in strictly increasing order of position. */
  lemma {:induction false} ProgressIncreasing(inputs: seq<string>, results: seq<BatchResult>, hasCallback: bool)
    requires |results| <= |inputs|
    ensures var calls := ProgressCalls(inputs, results, hasCallback);
      forall c, d :: 0 <= c < d < |calls| ==> calls[c].0 < calls[d].0
  {
    var n := |results|;
    if n > 0 && hasCallback {
      var init := results[..n - 1];
      ProgressIncreasing(inputs, init, hasCallback);
      ProgressReportsSuccesses(inputs, init, hasCallback);
      var prev := ProgressCalls(inputs, init, hasCallback);
      var calls := ProgressCalls(inputs, results, hasCallback);
      forall c, d | 0 <= c < d < |calls| ensures calls[c].0 < calls[d].0 {
        assert calls[c] == prev[c];
        if d < |prev| {
          assert calls[d] == prev[d];
        }
      }
    }
  }

  /** The number of successes among `results`. */
  function Successes(results: seq<BatchResult>): (k: nat)
    ensures k <= |results|
  {
    if results == [] then 0
    else Successes(results[..|results| - 1]) + (if results[|results| - 1].Success? then 1 else 0)
  }

  /** With a callback there is exactly one call per success. */
  lemma {:induction false} ProgressCallCount(inputs: seq<string>, results: seq<BatchResult>)
    requires |results| <= |inputs|
    ensures |ProgressCalls(inputs, results, true)| == Successes(results)
  {
    if results != [] {
      ProgressCallCount(inputs, results[..|results| - 1]);
    }
  }

  /** With a callback every success is reported: the i-th result, when a
      success, is reported by the call that follows the calls for the
      successes before it. */
  lemma {:induction false} ProgressComplete(inputs: seq<string>, results: seq<BatchResult>, i: int)
    requires |results| <= |inputs| && 0 <= i < |results| && results[i].Success?
    ensures var calls := ProgressCalls(inputs, results, true);
      Successes(results[..i]) < |calls| && calls[Successes(results[..i])] == (i + 1, |inputs|, inputs[i])
  {
    var n := |results|;
    var init := results[..n - 1];
    var prev := ProgressCalls(inputs, init, true);
    var calls := ProgressCalls(inputs, results, true);
    assert calls == prev + (if results[n - 1].Success? then [(n, |inputs|, inputs[n - 1])] else []);
    if i < n - 1 {
      ProgressComplete(inputs, init, i);
      assert init[..i] == results[..i];
    } else {
      ProgressCallCount(inputs, init);
      assert results[..i] == init;
    }
  }

  class WatermarkProcessor {
    var watermarkSettings: Settings
    var exportSettings: Settings

    /** A processor starts from the default settings. */
    constructor()
      ensures watermarkSettings == DefaultWatermarkSettings()
      ensures exportSettings == DefaultExportSettings()
    {
      watermarkSettings := DefaultWatermarkSettings();
      exportSettings := DefaultExportSettings();
    }

    /** The default keys are always present: updates only add keys. */
    predicate Valid()
      reads this
    {
      DefaultWatermarkSettings().Keys <= watermarkSettings.Keys
      && DefaultExportSettings().Keys <= exportSettings.Keys
    }

    /** `load_template(template_file)`, merging the document's sections in
        place. */
    method LoadTemplate(doc: Option<Value>) returns (error: Option<Error>)
      requires Valid()
      modifies this
      ensures Valid()
      ensures LoadOutcome(watermarkSettings, exportSettings, error)
              == LoadTemplateInto(old(watermarkSettings), old(exportSettings), doc)
    {
      if doc.None? {
        return Some(Unparseable);
      }
      var hasWatermark := HasSection(doc.value, "watermark");
      if hasWatermark.Err? {
        return Some(hasWatermark.error);
      }
      if hasWatermark.value {
        var section := Section(doc.value, "watermark");
        if section.Err? {
          return Some(section.error);
        }
        var merged := UpdateFrom(watermarkSettings, "watermark", section.value);
        if merged.Err? {
          return Some(merged.error);
        }
        watermarkSettings := merged.value;
      }
      var hasExport := HasSection(doc.value, "export");
      if hasExport.Err? {
        return Some(hasExport.error);
      }
      if hasExport.value {
        var section := Section(doc.value, "export");
        if section.Err? {
          return Some(section.error);
        }
        var merged := UpdateFrom(exportSettings, "export", section.value);
        if merged.Err? {
          return Some(merged.error);
        }
        exportSettings := merged.value;
      }
      return None;
    }

    /** `process_batch(input_paths, output_dir, auto_date, progress_callback)`:
        one result per input, in order, a failure not stopping the batch.
        The `output_dir` argument plays no part: each image is processed
        with the `output_dir` export setting. */
    method ProcessBatch(inputs: seq<string>, outputDir: Value, autoDate: bool, hasCallback: bool,
                        envs: seq<ImageEnv>, today: string)
      returns (results: seq<BatchResult>, progress: seq<(int, int, string)>)
      requires |envs| == |inputs|
      ensures results == BatchResults(watermarkSettings, exportSettings, inputs, autoDate, envs, today)
      ensures progress == ProgressCalls(inputs, results, hasCallback)
    {
      results := [];
      progress := [];
      var total := |inputs|;
      for i := 0 to |inputs|
        invariant results == BatchResults(watermarkSettings, exportSettings, inputs[..i], autoDate, envs[..i], today)
        invariant progress == ProgressCalls(inputs, results, hasCallback)
      {
        var result := ResultFor(inputs[i], ProcessImage(watermarkSettings, exportSettings, inputs[i], autoDate, envs[i], today));
        BatchResultsSnoc(watermarkSettings, exportSettings, inputs, autoDate, envs, today, i);
        ProgressCallsSnoc(inputs, results, result, hasCallback);
        results := results + [result];
        if result.Success? && hasCallback {
          progress := progress + [(i + 1, total, inputs[i])];
        }
      }
      assert inputs[..|inputs|] == inputs && envs[..|envs|] == envs;
    }
  }
}

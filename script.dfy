/** The original single-purpose script (watermark.py): where it places the
    date, which files of a directory it takes, and where it writes. The
    EXIF read, the clock, the text measurement and the image itself are
    inputs; the directory listing loop of `main` is left to the caller. */
module Script {
  import opened Values
  import opened PyStr
  import opened Paths
  import opened Position
  import opened ExifDate
  import opened Discovery
  import opened OutputPath

  /** The branch in `add_watermark` that places the text: `top_left`,
      `center` with true division, and everything else bottom-right, all
      with a margin of 10. */
  function ScriptPosition(position: string, w: int, h: int, tw: int, th: int): (real, real) {
    if position == "top_left" then (10.0, 10.0)
    else if position == "center" then ((w - tw) as real / 2.0, (h - th) as real / 2.0)
    else ((w - tw - 10) as real, (h - th - 10) as real)
  }

  function AsReal(p: (int, int)): (real, real) {
    (p.0 as real, p.1 as real)
  }

  /** The script agrees with the classes' table (margin 10) on `top_left`
      and on every name it does not know, which all land bottom-right, even
      `top_center` and `top_right`; on `center` it places the text at the
      exact halves, whose floors are the classes' floored halves. */
  lemma {:induction false} ScriptPositionAgrees(position: string, w: int, h: int, tw: int, th: int)
    ensures var xy := ScriptPosition(position, w, h, tw, th);
      && (position == "top_left" ==> xy == AsReal(Place(TopLeft, w, h, tw, th, 10, 10)))
      && (position == "center" ==>
            && 2.0 * xy.0 == (w - tw) as real && 2.0 * xy.1 == (h - th) as real
            && xy.0.Floor == Place(Center, w, h, tw, th, 10, 10).0
            && xy.1.Floor == Place(Center, w, h, tw, th, 10, 10).1)
      && (position != "top_left" && position != "center" ==> xy == AsReal(Place(BottomRight, w, h, tw, th, 10, 10)))
  {
    if position == "center" {
      HalfIsFloor(w - tw);
      HalfIsFloor(h - th);
    }
  }

  /** Python's `a // 2` is the floor of `a / 2`. */
  lemma {:induction false} HalfIsFloor(a: int)
    ensures (a as real / 2.0).Floor == Half(a)
  {
    var q := Half(a);
    assert q as real <= a as real / 2.0 < q as real + 1.0;
  }

  /** Named anchors other than `top_left` and `center` that the classes
      place off the bottom-right corner are all moved there by the script. */
  lemma {:induction false} ScriptMovesAnchors(w: int, h: int, tw: int, th: int)
    ensures ScriptPosition("top_right", w, h, tw, th) == AsReal(Place(BottomRight, w, h, tw, th, 10, 10))
    ensures Place(TopRight, w, h, tw, th, 10, 10).1 == 10
    ensures ScriptPosition("middle_left", w, h, tw, th) == AsReal(Place(BottomRight, w, h, tw, th, 10, 10))
  {
  }

  /** What `add_watermark` does: one text draw at the placed position in
      the given colour, the directory it creates (if any) and the path it
      saves to. */
  datatype ScriptDraw = ScriptDraw(x: real, y: real, text: string, color: string, makeDir: Option<string>, path: string)

  function AddWatermark(text: string, outputPath: string, color: string, position: string,
                        size: (int, int), textSize: (int, int)): (d: ScriptDraw)
    ensures d.makeDir.Some? <==> '/' in outputPath
    ensures d.makeDir.Some? ==> d.makeDir.value == Dirname(outputPath) && d.makeDir.value != ""
    ensures d.path == outputPath && d.text == text
    ensures (d.x, d.y) == ScriptPosition(position, size.0, size.1, textSize.0, textSize.1) && d.color == color
  {
    var (x, y) := ScriptPosition(position, size.0, size.1, textSize.0, textSize.1);
    var dir := Dirname(outputPath);
    ScriptDraw(x, y, text, color, if dir != "" then Some(dir) else None, outputPath)
  }

  // ------------------------------------------------------ directory mode

  /** `join(join(dir, basename(dir) + "_watermark"), filename)`. */
  function DirOutput(dir: string, filename: string): string {
    OsJoin(OsJoin(dir, Basename(dir) + "_watermark"), filename)
  }

  /** One entry of the listing in directory mode: the output path and the
      text, or nothing when the name's ending is not accepted or the date
      is empty. */
  function DirectoryJob(dir: string, filename: string, tag: Option<string>, today: string): Option<(string, string)> {
    if !ScriptAccepted(filename) then None
    else
      var date := ScriptExifDate(tag, today);
      if date == "" then None else Some((DirOutput(dir, filename), date))
  }

  /** Every accepted file is processed, since the date falls back to the
      (non-empty) current date, and written to `DirOutput`. */
  lemma {:induction false} DirectoryJobRuns(dir: string, filename: string, tag: Option<string>, today: string)
    requires today != "" && ScriptAccepted(filename)
    ensures DirectoryJob(dir, filename, tag, today) == Some((DirOutput(dir, filename), ScriptExifDate(tag, today)))
    ensures ScriptExifDate(tag, today) != ""
  {
  }

  /** The output of a slash-free, non-empty name reads back: its base name
      is the name and its directory the `_watermark` subdirectory, which
      for a directory given without a trailing slash is
      `dir/<basename(dir)>_watermark`. */
  lemma {:induction false} DirOutputReadBack(dir: string, filename: string)
    requires '/' !in filename && filename != ""
    ensures var sub := OsJoin(dir, Basename(dir) + "_watermark");
      && Basename(DirOutput(dir, filename)) == filename
      && Dirname(DirOutput(dir, filename)) == sub
      && (dir != "" && !EndsWith(dir, "/") ==> sub == dir + "/" + Basename(dir) + "_watermark")
  {
    var b := Basename(dir) + "_watermark";
    assert b[|b| - 1] == 'k';
    assert !StartsWith(b, "/") by {
      if Basename(dir) == "" { assert b[..1] == "_"; }
      else { assert Basename(dir)[0] in Basename(dir); assert b[..1] == [Basename(dir)[0]]; }
    }
    var sub := OsJoin(dir, b);
    assert sub[|sub| - 1] == 'k';
    JoinedFile(sub, filename);
  }

  /** A directory given with a trailing slash has an empty base name, so
      its output directory is just `_watermark` inside it (`photos/` writes
      `photos/_watermark/a.jpg`, not `photos/photos_watermark/a.jpg`). */
  lemma {:induction false} TrailingSlashDirectory(dir: string, filename: string)
    requires EndsWith(dir, "/") && '/' !in filename && filename != ""
    ensures Basename(dir) == ""
    ensures DirOutput(dir, filename) == dir + "_watermark/" + filename
  {
    assert dir[|dir| - 1] == '/';
    assert Basename(dir) == "";
    assert Basename(dir) + "_watermark" == "_watermark";
    assert !StartsWith("_watermark", "/") by { assert "_watermark"[..1] == "_"; }
    var sub := dir + "_watermark";
    assert OsJoin(dir, "_watermark") == sub;
    assert !EndsWith(sub, "/") by { assert sub[|sub| - 1..] == "k"; }
    assert !StartsWith(filename, "/") by { assert filename[0] in filename; assert filename[..1] == [filename[0]]; }
    assert OsJoin(sub, filename) == sub + "/" + filename;
  }

  // ---------------------------------------------------- single-file mode

  /** `f"{root}_watermark{ext}"` from `splitext(path)`. */
  function FileOutput(path: string): string {
    var (root, ext) := Splitext(path);
    root + "_watermark" + ext
  }

  function FileJob(path: string, tag: Option<string>, today: string): Option<(string, string)> {
    var date := ScriptExifDate(tag, today);
    if date == "" then None else Some((FileOutput(path), date))
  }

  /** The single-file output stays in the input's directory and keeps its
      extension: `splitext` of it gives the input's root with
      `_watermark` appended, and the input's extension. */
  lemma {:induction false} FileOutputReadBack(path: string)
    ensures Dirname(FileOutput(path)) == Dirname(path)
    ensures Splitext(FileOutput(path)) == (Splitext(path).0 + "_watermark", Splitext(path).1)
  {
    var (root, ext) := Splitext(path);
    var t := "_watermark" + ext;
    assert FileOutput(path) == root + t;
    assert forall k :: 0 <= k < |t| ==> t[k] != '/' by {
      forall k | 0 <= k < |t| ensures t[k] != '/' {
        if k < 10 { assert t[k] == "_watermark"[k]; } else { assert t[k] == ext[k - 10]; }
      }
    }
    DirnameAppend(root, t);
    DirnameAppend(root, ext);
    if ext == "" {
      SplitextNoExtension(path);
    } else {
      SplitextExtension(path);
    }
  }

  /** Appending slash-free characters keeps the directory. */
  lemma {:induction false} DirnameAppend(a: string, t: string)
    requires forall k :: 0 <= k < |t| ==> t[k] != '/'
    ensures Dirname(a + t) == Dirname(a)
  {
    var s := RFind(a, '/');
    SameLast(a, t, '/');
    assert (a + t)[..RFind(a + t, '/') + 1] == a[..s + 1];
  }

  /** A path without an extension still has none once `_watermark` is
      appended. */
  lemma {:induction false} SplitextNoExtension(path: string)
    requires Splitext(path).1 == ""
    ensures Splitext(path + "_watermark") == (path + "_watermark", "")
  {
    var out := path + "_watermark";
    var s := RFind(path, '/');
    var d := RFind(path, '.');
    assert forall k :: 0 <= k < 10 ==> "_watermark"[k] != '/' && "_watermark"[k] != '.';
    SameLast(path, "_watermark", '/');
    SameLast(path, "_watermark", '.');
    assert forall k :: 0 <= k < |path| ==> out[k] == path[k];
  }

  /** With an extension, `_watermark` goes between the root and it. */
  lemma {:induction false} SplitextExtension(path: string)
    requires Splitext(path).1 != ""
    ensures var (root, ext) := Splitext(path);
      Splitext(root + "_watermark" + ext) == (root + "_watermark", ext)
  {
    var (root, ext) := Splitext(path);
    var out := root + "_watermark" + ext;
    var s := RFind(path, '/');
    var d := RFind(path, '.');
    assert root == path[..d] && ext == path[d..];
    var t := "_watermark" + ext;
    assert out == root + t;
    assert forall k :: 0 <= k < |t| ==> t[k] != '/' by {
      forall k | 0 <= k < |t| ensures t[k] != '/' {
        if k < 10 { assert t[k] == "_watermark"[k]; } else { assert t[k] == ext[k - 10]; }
      }
    }
    SlashBeforeDot(path, d);
    SameLast(root, t, '/');
    assert RFind(out, '.') == |root| + 10 by {
      assert out[|root| + 10] == ext[0] == '.';
      forall k | |root| + 10 < k < |out| ensures out[k] != '.' {
        assert out[k] == ext[k - |root| - 10];
      }
      RFindUnique(out, '.', |root| + 10);
    }
    assert out[|root|] == '_' && s + 1 <= |root| < |root| + 10;
    assert out[..|root| + 10] == root + "_watermark" && out[|root| + 10..] == ext;
  }

  /** Appending characters other than `c` does not move the last `c`. */
  lemma {:induction false} SameLast(a: string, t: string, c: char)
    requires forall k :: 0 <= k < |t| ==> t[k] != c
    ensures RFind(a + t, c) == RFind(a, c)
  {
    var r := RFind(a, c);
    var s := a + t;
    assert forall k :: r < k < |s| ==> s[k] != c by {
      forall k | r < k < |s| ensures s[k] != c {
        if k < |a| { assert s[k] == a[k]; } else { assert s[k] == t[k - |a|]; }
      }
    }
    if r >= 0 {
      assert s[r] == a[r];
    } else {
      assert forall k :: 0 <= k < |s| ==> s[k] != c;
    }
    RFindUnique(s, c, r);
  }

  /** The last `c` is wherever none follows. */
  lemma {:induction false} RFindUnique(s: string, c: char, r: int)
    requires -1 <= r < |s| && (r >= 0 ==> s[r] == c)
    requires forall k :: r < k < |s| ==> s[k] != c
    ensures RFind(s, c) == r
  {
    if |s| > 0 && s[|s| - 1] != c {
      RFindUnique(s[..|s| - 1], c, r);
    }
  }

  /** A dot that splitext splits at comes after the last slash, so the
      root keeps that slash. */
  lemma {:induction false} SlashBeforeDot(path: string, d: int)
    requires d == RFind(path, '.') && d > RFind(path, '/')
    ensures RFind(path[..d], '/') == RFind(path, '/')
  {
    var s := RFind(path, '/');
    var root := path[..d];
    if s >= 0 {
      assert root[s] == path[s];
    }
    forall k | s < k < |root| ensures root[k] != '/' {
      assert root[k] == path[k];
    }
    RFindUnique(root, '/', s);
  }
}

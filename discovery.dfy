/** The image-extension filters and image discovery: the command-line
    `find_images` (watermark_cli_v2.py:64-78), the GUI's folder import and
    drop filters (watermark_gui.py:302-318, 784-805) and the script's
    directory filter (watermark.py:51-52). Directory listings are inputs:
    a sequence of relative paths (for a recursive glob) or of
    `(root, file)` pairs (for `os.walk`), in the order the file system
    yields them. */
module Discovery {
  import opened Values
  import opened PyStr
  import opened Paths

  /** The six extensions of `supported_formats`, in the order the model
      visits them. */
  const Formats: seq<string> := [".jpg", ".jpeg", ".png", ".bmp", ".tiff", ".tif"]

  predicate Supported(ext: string) {
    ext in {".jpg", ".jpeg", ".png", ".bmp", ".tiff", ".tif"}
  }

  /** `Path(name).suffix.lower() in supported_formats` for a file name
      (a single path part, which is its own `Path(name).name`). */
  predicate SuffixAccepted(name: string) {
    Supported(Lower(Suffix(name)))
  }

  /** The drop handler's test: the lower-cased name ends in one of the six. */
  predicate EndingAccepted(name: string) {
    var l := Lower(name);
    EndsWith(l, ".jpg") || EndsWith(l, ".jpeg") || EndsWith(l, ".png")
    || EndsWith(l, ".bmp") || EndsWith(l, ".tiff") || EndsWith(l, ".tif")
  }

  /** The script's test: the lower-cased name ends in `.png`, `.jpg` or
      `.jpeg`. */
  predicate ScriptAccepted(name: string) {
    var l := Lower(name);
    EndsWith(l, ".png") || EndsWith(l, ".jpg") || EndsWith(l, ".jpeg")
  }

  /** The recursive globs of `find_images`, `*ext` and `*EXT` at any depth:
      glob matching is case-sensitive, so only the all-lower and all-upper
      spellings match. */
  predicate GlobAccepted(name: string) {
    || EndsWith(name, ".jpg") || EndsWith(name, ".JPG")
    || EndsWith(name, ".jpeg") || EndsWith(name, ".JPEG")
    || EndsWith(name, ".png") || EndsWith(name, ".PNG")
    || EndsWith(name, ".bmp") || EndsWith(name, ".BMP")
    || EndsWith(name, ".tiff") || EndsWith(name, ".TIFF")
    || EndsWith(name, ".tif") || EndsWith(name, ".TIF")
  }

  // --------------------------------------------------------------- sorting

  /** Python's string order: code points compared lexicographically. */
  predicate Le(a: string, b: string)
    decreases |a|
  {
    a == [] || (b != [] && (a[0] < b[0] || (a[0] == b[0] && Le(a[1..], b[1..]))))
  }

  lemma {:induction false} LeTotal(a: string, b: string)
    ensures Le(a, b) || Le(b, a)
    decreases |a|
  {
    if a != [] && b != [] && a[0] == b[0] {
      LeTotal(a[1..], b[1..]);
    }
  }

  lemma {:induction false} LeTrans(a: string, b: string, c: string)
    requires Le(a, b) && Le(b, c)
    ensures Le(a, c)
    decreases |a|
  {
    if a != [] && a[0] == b[0] && b[0] == c[0] {
      LeTrans(a[1..], b[1..], c[1..]);
    }
  }

  predicate Sorted(s: seq<string>) {
    forall i, j :: 0 <= i < j < |s| ==> Le(s[i], s[j])
  }

  function Insert(x: string, s: seq<string>): (r: seq<string>)
    requires Sorted(s)
    ensures Sorted(r)
    ensures multiset(r) == multiset(s) + multiset{x}
  {
    if s == [] then [x]
    else if Le(x, s[0]) then
      LeBelowSorted(x, s);
      [x] + s
    else
      LeTotal(x, s[0]);
      var t := Insert(x, s[1..]);
      assert s == [s[0]] + s[1..];
      HeadBelowInsert(x, s, t);
      [s[0]] + t
  }

  lemma {:induction false} LeBelowSorted(x: string, s: seq<string>)
    requires Sorted(s) && s != [] && Le(x, s[0])
    ensures Sorted([x] + s)
  {
    forall j | 1 <= j < |s| + 1 ensures Le(x, ([x] + s)[j]) {
      if j > 1 {
        LeTrans(x, s[0], s[j - 1]);
      }
    }
  }

  lemma {:induction false} HeadBelowInsert(x: string, s: seq<string>, t: seq<string>)
    requires Sorted(s) && s != [] && Le(s[0], x) && Sorted(t)
    requires multiset(t) == multiset(s[1..]) + multiset{x}
    ensures Sorted([s[0]] + t)
  {
    forall j | 0 <= j < |t| ensures Le(s[0], t[j]) {
      assert t[j] in multiset(t);
      if t[j] != x {
        assert t[j] in multiset(s[1..]);
        var k :| 0 <= k < |s[1..]| && s[1..][k] == t[j];
        assert s[k + 1] == t[j];
      }
    }
  }

  /** `sorted(xs)`. */
  function Sort(xs: seq<string>): (r: seq<string>)
    ensures Sorted(r)
    ensures multiset(r) == multiset(xs)
  {
    if xs == [] then []
    else
      assert xs == xs[..|xs| - 1] + [xs[|xs| - 1]];
      Insert(xs[|xs| - 1], Sort(xs[..|xs| - 1]))
  }

  // --------------------------------------------------------- find_images

  /** A file found below a directory: its name and the path string the
      glob yields for it. */
  datatype Found = Found(name: string, path: string)

  /** What `path` is on disk: a file, a directory with every file below
      it, or neither. */
  datatype Entry = File | Directory(below: seq<Found>) | Absent

  /** `[out(x) for x in xs if keep(x)]`. */
  function Select<T>(xs: seq<T>, keep: T -> bool, out: T -> string): (r: seq<string>)
    ensures forall s :: s in r <==> exists x :: x in xs && keep(x) && s == out(x)
  {
    if xs == [] then []
    else
      var x := xs[|xs| - 1];
      assert xs == xs[..|xs| - 1] + [x];
      Select(xs[..|xs| - 1], keep, out) + (if keep(x) then [out(x)] else [])
  }

  /** The matches of one recursive glob for `*ending` below `dir`, as
      strings. */
  function GlobAll(below: seq<Found>, ending: string): seq<string> {
    Select(below, (f: Found) => EndsWith(f.name, ending), (f: Found) => f.path)
  }

  /** The globs of the first `e` extensions, each in lower then upper case,
      concatenated. */
  function Globbed(below: seq<Found>, e: nat): seq<string>
    requires e <= |Formats|
  {
    if e == 0 then []
    else Globbed(below, e - 1) + GlobAll(below, Formats[e - 1]) + GlobAll(below, Upper(Formats[e - 1]))
  }

  /** The name matches the lower or upper spelling of one of the first `e`
      extensions. */
  predicate MatchesUpTo(name: string, e: nat)
    requires e <= |Formats|
  {
    e > 0 && (MatchesUpTo(name, e - 1) || EndsWith(name, Formats[e - 1]) || EndsWith(name, Upper(Formats[e - 1])))
  }

  lemma {:induction false} GlobbedMembers(below: seq<Found>, e: nat)
    requires e <= |Formats|
    ensures forall s :: s in Globbed(below, e) <==>
              exists f :: f in below && MatchesUpTo(f.name, e) && s == f.path
  {
    if e > 0 {
      GlobbedMembers(below, e - 1);
    }
  }

  lemma UpperFormats()
    ensures Upper(Formats[0]) == ".JPG" && Upper(Formats[1]) == ".JPEG" && Upper(Formats[2]) == ".PNG"
    ensures Upper(Formats[3]) == ".BMP" && Upper(Formats[4]) == ".TIFF" && Upper(Formats[5]) == ".TIF"
  {
    UpperAscii(".jpg", ".JPG");
    UpperAscii(".jpeg", ".JPEG");
    UpperAscii(".png", ".PNG");
    UpperAscii(".bmp", ".BMP");
    UpperAscii(".tiff", ".TIFF");
    UpperAscii(".tif", ".TIF");
  }

  lemma {:induction false} UpperAscii(s: string, t: string)
    requires |s| == |t| && forall k :: 0 <= k < |s| ==> UpperChar(s[k]) == t[k]
    ensures Upper(s) == t
  {
  }

  lemma {:induction false} AllFormatsGlob(name: string)
    ensures MatchesUpTo(name, |Formats|) <==> GlobAccepted(name)
  {
    UpperFormats();
    assert MatchesUpTo(name, 6) == (MatchesUpTo(name, 5) || EndsWith(name, ".tif") || EndsWith(name, ".TIF"));
    assert MatchesUpTo(name, 5) == (MatchesUpTo(name, 4) || EndsWith(name, ".tiff") || EndsWith(name, ".TIFF"));
    assert MatchesUpTo(name, 4) == (MatchesUpTo(name, 3) || EndsWith(name, ".bmp") || EndsWith(name, ".BMP"));
    assert MatchesUpTo(name, 3) == (MatchesUpTo(name, 2) || EndsWith(name, ".png") || EndsWith(name, ".PNG"));
    assert MatchesUpTo(name, 2) == (MatchesUpTo(name, 1) || EndsWith(name, ".jpeg") || EndsWith(name, ".JPEG"));
    assert MatchesUpTo(name, 1) == (EndsWith(name, ".jpg") || EndsWith(name, ".JPG"));
  }

  /** `WatermarkProcessor.find_images(path)`: a file is kept when its own
      suffix (in any case) is supported; a directory is globbed once per
      extension in lower and in upper case; the result is sorted. The
      order in which a set yields its extensions is not fixed; this model
      takes them in the order of `Formats`, which the sorting erases. */
  method FindImages(path: string, entry: Entry) returns (images: seq<string>)
    ensures Sorted(images)
    ensures entry.File? ==> images == (if SuffixAccepted(Name(Parse(path))) then [Str(Parse(path))] else [])
    ensures entry.Absent? ==> images == []
    ensures entry.Directory? ==> forall s :: s in images <==>
              exists f :: f in entry.below && GlobAccepted(f.name) && s == f.path
    ensures entry.Directory? ==> multiset(images) == multiset(Globbed(entry.below, |Formats|))
  {
    var p := Parse(path);
    var found: seq<string> := [];
    if entry.File? {
      if Supported(Lower(Suffix(Name(p)))) {
        found := [Str(p)];
      }
    } else if entry.Directory? {
      found := GlobDirectory(entry.below);
    }
    images := Sort(found);
    SortMembers(found);
  }

  /** The two globs per extension, in the order of `Formats`. */
  method GlobDirectory(below: seq<Found>) returns (found: seq<string>)
    ensures found == Globbed(below, |Formats|)
    ensures forall s :: s in found <==> exists f :: f in below && GlobAccepted(f.name) && s == f.path
  {
    found := [];
    for e := 0 to |Formats|
      invariant found == Globbed(below, e)
    {
      found := found + GlobAll(below, Formats[e]);
      found := found + GlobAll(below, Upper(Formats[e]));
    }
    GlobbedMembers(below, |Formats|);
    forall f: Found { AllFormatsGlob(f.name); }
  }

  /** Sorting keeps exactly the members. */
  lemma {:induction false} SortMembers(xs: seq<string>)
    ensures forall s :: s in Sort(xs) <==> s in xs
    ensures |xs| <= 1 ==> Sort(xs) == xs
  {
    forall s ensures s in Sort(xs) <==> s in xs {
      assert s in Sort(xs) <==> s in multiset(Sort(xs));
      assert s in xs <==> s in multiset(xs);
    }
    if |xs| == 1 {
      assert xs[..0] == [];
    }
  }

  // ------------------------------------------------------ the GUI filters

  /** The GUI's folder import: every walked file whose own suffix is
      supported, joined to its root. */
  function ImportFolderFiles(walk: seq<(string, string)>): (r: seq<string>)
    ensures forall s :: s in r <==> exists w :: w in walk && SuffixAccepted(w.1) && s == OsJoin(w.0, w.1)
  {
    Select(walk, (w: (string, string)) => SuffixAccepted(w.1), (w: (string, string)) => OsJoin(w.0, w.1))
  }

  /** One item dropped on the window: a file path, a directory with its
      walk, or something that is neither. */
  datatype Dropped = DroppedFile(path: string) | DroppedDir(walk: seq<(string, string)>) | DroppedOther

  function WalkEndings(walk: seq<(string, string)>): (r: seq<string>)
    ensures forall s :: s in r <==> exists w :: w in walk && EndingAccepted(w.1) && s == OsJoin(w.0, w.1)
  {
    Select(walk, (w: (string, string)) => EndingAccepted(w.1), (w: (string, string)) => OsJoin(w.0, w.1))
  }

  predicate DropYields(d: Dropped, s: string) {
    || (d.DroppedFile? && EndingAccepted(d.path) && s == d.path)
    || (d.DroppedDir? && s in WalkEndings(d.walk))
  }

  /** What one dropped item contributes. */
  function DropOutput(d: Dropped): (r: seq<string>)
    ensures forall s :: s in r <==> DropYields(d, s)
  {
    match d
    case DroppedFile(p) => if EndingAccepted(p) then [p] else []
    case DroppedDir(walk) => WalkEndings(walk)
    case DroppedOther => []
  }

  /** The drop handler's collection: a dropped file is judged on its whole
      lower-cased path, walked files on their lower-cased names. */
  function DroppedFiles(items: seq<Dropped>): (r: seq<string>)
    ensures forall s :: s in r <==> exists d :: d in items && DropYields(d, s)
  {
    if items == [] then []
    else
      var d := items[|items| - 1];
      assert items == items[..|items| - 1] + [d];
      DroppedFiles(items[..|items| - 1]) + DropOutput(d)
  }

  // ---------------------------------------------------------- differences

  lemma {:induction false} LowerEnding(name: string, ext: string)
    requires EndsWith(name, ext)
    ensures EndsWith(Lower(name), Lower(ext))
  {
    var t := Lower(name)[|name| - |ext|..];
    assert |t| == |ext|;
    forall k | 0 <= k < |ext| ensures t[k] == Lower(ext)[k] {
      assert name[|name| - |ext| + k] == ext[k];
    }
  }

  /** Every name the suffix filter accepts, the ending filter accepts too. */
  lemma {:induction false} SuffixImpliesEnding(name: string)
    requires SuffixAccepted(name)
    ensures EndingAccepted(name)
  {
    var s := Suffix(name);
    var i := RFind(name, '.');
    assert s == name[i..];
    assert EndsWith(name, s);
    LowerEnding(name, s);
  }

  /** A hidden file named after an extension: the suffix filter rejects it
      (a name that is only a suffix has none), the ending filter and the
      glob accept it. */
  lemma HiddenFileFilters()
    ensures !SuffixAccepted(".jpg") && EndingAccepted(".jpg") && GlobAccepted(".jpg")
  {
    assert RFind(".jpg", '.') == 0;
    assert Lower("") == "";
    assert Lower(".jpg") == ".jpg";
  }

  /** Mixed case: the suffix and ending filters accept a name such as
      `photo.Jpg`; none of the twelve globs of a directory search matches
      it. */
  lemma {:induction false} MixedCaseFilters(stem: string)
    requires stem != "" && '.' !in stem
    ensures var n := stem + ".Jpg";
      SuffixAccepted(n) && EndingAccepted(n) && !GlobAccepted(n)
  {
    var n := stem + ".Jpg";
    var m := |n|;
    assert n[m - 4] == '.' && n[m - 3] == 'J' && n[m - 2] == 'p' && n[m - 1] == 'g';
    MixedCaseSuffix(stem);
    var l := Lower(n);
    assert l[m - 4..] == ".jpg" by {
      assert l[m - 4] == '.' && l[m - 3] == 'j' && l[m - 2] == 'p' && l[m - 1] == 'g';
    }
    assert EndsWith(l, ".jpg");
    NotEndsAt(n, ".jpg", 1);
    NotEndsAt(n, ".JPG", 2);
    NotEndsAt(n, ".jpeg", 3);
    NotEndsAt(n, ".JPEG", 4);
    NotEndsAt(n, ".png", 1);
    NotEndsAt(n, ".PNG", 3);
    NotEndsAt(n, ".bmp", 3);
    NotEndsAt(n, ".BMP", 3);
    NotEndsAt(n, ".tiff", 4);
    NotEndsAt(n, ".TIFF", 4);
    NotEndsAt(n, ".tif", 3);
    NotEndsAt(n, ".TIF", 3);
  }

  /** The suffix of `<stem>.Jpg` is `.Jpg`, which lower-cases to `.jpg`. */
  lemma {:induction false} MixedCaseSuffix(stem: string)
    requires stem != "" && '.' !in stem
    ensures Suffix(stem + ".Jpg") == ".Jpg" && Lower(".Jpg") == ".jpg"
  {
    var n := stem + ".Jpg";
    assert n[|stem|] == '.';
    forall k | 0 <= k < |n| && k != |stem| ensures n[k] != '.' {
      if k < |stem| { assert n[k] == stem[k]; } else { assert n[k] == ".Jpg"[k - |stem|]; }
    }
    RFindLast(n, '.', |stem|);
    assert n[|stem|..] == ".Jpg";
  }

  /** A name does not end in `p` when it differs from `p` at one position
      of that ending. */
  lemma {:induction false} NotEndsAt(n: string, p: string, k: nat)
    requires |p| <= |n| && k < |p| && n[|n| - |p| + k] != p[k]
    ensures !EndsWith(n, p)
  {
    assert n[|n| - |p|..][k] == n[|n| - |p| + k];
  }

  /** The last `c` is at `r` when no other position holds one. */
  lemma {:induction false} RFindLast(s: string, c: char, r: nat)
    requires r < |s| && s[r] == c && forall k :: r < k < |s| ==> s[k] != c
    ensures RFind(s, c) == r
    decreases |s|
  {
    if s[|s| - 1] != c {
      assert s[..|s| - 1][r] == c;
      RFindLast(s[..|s| - 1], c, r);
    }
  }

  lemma {:induction false} LastOfEnding(l: string, e: string)
    requires e != []
    ensures EndsWith(l, e) ==> l[|l| - 1] == e[|e| - 1]
  {
    if EndsWith(l, e) {
      assert l[|l| - |e|..][|e| - 1] == l[|l| - 1];
    }
  }

  /** The script accepts a subset of what the GUI accepts, and no BMP or
      TIFF file. */
  lemma {:induction false} ScriptFilter(name: string)
    ensures ScriptAccepted(name) ==> EndingAccepted(name)
    ensures EndsWith(Lower(name), ".bmp") || EndsWith(Lower(name), ".tiff") ==> !ScriptAccepted(name)
  {
    var l := Lower(name);
    LastOfEnding(l, ".bmp");
    LastOfEnding(l, ".tiff");
    LastOfEnding(l, ".png");
    LastOfEnding(l, ".jpg");
    LastOfEnding(l, ".jpeg");
  }
}

/** The command-line tool's template store (watermark_cli_v2.py:273-328):
    the document `save_template` writes and where, and the listing
    `list_templates` builds. The file system is an input: whether the
    directory exists, and each directory entry's name with the document
    parsed from it (`None` when the file could not be read or parsed as
    JSON). A JSON document is modelled as its parsed value. */
module Templates {
  import opened Values
  import opened PyStr
  import opened Paths

  /** The template directory: the given one when truthy (only a string
      makes a path), else `.watermark_templates` in the home directory. */
  function TemplateDir(templateDir: Value, home: string): (r: Result<PurePath>)
    ensures r.Ok? ==> WellFormed(r.value)
    ensures !Truthy(templateDir) ==> r == Ok(Div(Parse(home), ".watermark_templates"))
    ensures templateDir.VStr? && templateDir.s != "" ==> r == Ok(Parse(templateDir.s))
  {
    if Truthy(templateDir) then
      if templateDir.VStr? then Ok(Parse(templateDir.s)) else Err(WrongType("template_dir"))
    else Ok(Div(Parse(home), ".watermark_templates"))
  }

  /** The document `save_template` writes: both settings dictionaries and
      the creation time. */
  function TemplateDocument(ws: Settings, es: Settings, now: string): (doc: Settings)
    ensures doc.Keys == {"watermark", "export", "created_at"}
    ensures doc["watermark"] == VObj(ws) && doc["export"] == VObj(es) && doc["created_at"] == VStr(now)
  {
    map["watermark" := VObj(ws), "export" := VObj(es), "created_at" := VStr(now)]
  }

  /** The path `save_template` writes to and returns: `<name>.json` in the
      template directory. */
  function SaveTemplatePath(name: string, templateDir: Value, home: string): Result<string> {
    var dir :- TemplateDir(templateDir, home);
    Ok(Str(Div(dir, name + ".json")))
  }

  /** One line of the listing. */
  datatype TemplateEntry = TemplateEntry(name: string, file: string, createdAt: Value)

  /** A directory entry: its name and its parsed document, if any. */
  type Listing = seq<(string, Option<Value>)>

  /** What one directory entry contributes: nothing unless its name
      matches `*.json` and its document is a JSON object (`get` on anything
      else raises, and the error is swallowed). */
  function EntryFor(dir: PurePath, item: (string, Option<Value>)): seq<TemplateEntry>
    requires WellFormed(dir)
  {
    var (name, doc) := item;
    if EndsWith(name, ".json") && doc.Some? && doc.value.VObj? then
      [TemplateEntry(Stem(name), Str(Div(dir, name)), GetOr(doc.value.fields, "created_at", VStr("Unknown")))]
    else []
  }

  function Listed(dir: PurePath, listing: Listing): seq<TemplateEntry>
    requires WellFormed(dir)
  {
    if listing == [] then []
    else Listed(dir, listing[..|listing| - 1]) + EntryFor(dir, listing[|listing| - 1])
  }

  /** `WatermarkProcessor.list_templates(template_dir)`. */
  method ListTemplates(templateDir: Value, home: string, dirExists: bool, listing: Listing)
    returns (r: Result<seq<TemplateEntry>>)
    ensures TemplateDir(templateDir, home).Err? ==> r == Err(TemplateDir(templateDir, home).error)
    ensures TemplateDir(templateDir, home).Ok? && !dirExists ==> r == Ok([])
    ensures TemplateDir(templateDir, home).Ok? && dirExists ==> r == Ok(Listed(TemplateDir(templateDir, home).value, listing))
  {
    var d := TemplateDir(templateDir, home);
    if d.Err? {
      return Err(d.error);
    }
    var dir := d.value;
    if !dirExists {
      return Ok([]);
    }
    var templates: seq<TemplateEntry> := [];
    for i := 0 to |listing|
      invariant templates == Listed(dir, listing[..i])
    {
      var (name, doc) := listing[i];
      if EndsWith(name, ".json") {
        if doc.Some? && doc.value.VObj? {
          var createdAt := GetOr(doc.value.fields, "created_at", VStr("Unknown"));
          templates := templates + [TemplateEntry(Stem(name), Str(Div(dir, name)), createdAt)];
        }
      }
      assert listing[..i + 1][..i] == listing[..i];
    }
    assert listing[..|listing|] == listing;
    return Ok(templates);
  }

  // ------------------------------------------------------------ properties

  /** The entry a directory item describes: a `*.json` file holding a
      JSON object, named after the file's stem, with the document's
      `created_at`, or `Unknown` when there is none. */
  predicate Describes(dir: PurePath, item: (string, Option<Value>), e: TemplateEntry)
    requires WellFormed(dir)
  {
    && EndsWith(item.0, ".json") && item.1.Some? && item.1.value.VObj?
    && e.name == Stem(item.0)
    && e.file == Str(Div(dir, item.0))
    && e.createdAt == (if "created_at" in item.1.value.fields then item.1.value.fields["created_at"] else VStr("Unknown"))
  }

  /** Every entry of the listing is described by a directory item, every
      item that describes an entry gives it, and at most one entry comes
      from each item. */
  lemma {:induction false} ListedEntries(dir: PurePath, listing: Listing)
    requires WellFormed(dir)
    ensures forall e :: e in Listed(dir, listing) <==> exists item :: item in listing && Describes(dir, item, e)
    ensures |Listed(dir, listing)| <= |listing|
  {
    ListedLength(dir, listing);
    forall e ensures e in Listed(dir, listing) <==> exists item :: item in listing && Describes(dir, item, e) {
      if e in Listed(dir, listing) {
        var k := ListedSound(dir, listing, e);
        assert listing[k] in listing;
      }
      if exists item :: item in listing && Describes(dir, item, e) {
        var item :| item in listing && Describes(dir, item, e);
        ListedComplete(dir, listing, item, e);
      }
    }
  }

  /** An item contributes exactly the entry it describes, if any. */
  lemma {:induction false} EntryForDescribes(dir: PurePath, item: (string, Option<Value>), e: TemplateEntry)
    requires WellFormed(dir)
    ensures e in EntryFor(dir, item) <==> Describes(dir, item, e)
    ensures |EntryFor(dir, item)| <= 1
  {
  }

  lemma {:induction false} ListedLength(dir: PurePath, listing: Listing)
    requires WellFormed(dir)
    ensures |Listed(dir, listing)| <= |listing|
  {
    if listing != [] {
      ListedLength(dir, listing[..|listing| - 1]);
      EntryForDescribes(dir, listing[|listing| - 1], TemplateEntry("", "", VNull));
    }
  }

  /** The position of the item an entry of the listing comes from. */
  lemma {:induction false} ListedSound(dir: PurePath, listing: Listing, e: TemplateEntry) returns (k: nat)
    requires WellFormed(dir) && e in Listed(dir, listing)
    ensures k < |listing| && Describes(dir, listing[k], e)
  {
    var n := |listing| - 1;
    var init := listing[..n];
    if e in Listed(dir, init) {
      k := ListedSound(dir, init, e);
      assert init[k] == listing[k];
    } else {
      EntryForDescribes(dir, listing[n], e);
      k := n;
    }
  }

  lemma {:induction false} ListedComplete(dir: PurePath, listing: Listing, item: (string, Option<Value>), e: TemplateEntry)
    requires WellFormed(dir) && item in listing && Describes(dir, item, e)
    ensures e in Listed(dir, listing)
  {
    var init := listing[..|listing| - 1];
    var last := listing[|listing| - 1];
    assert listing == init + [last];
    if item == last {
      EntryForDescribes(dir, last, e);
    } else {
      assert item in init;
      ListedComplete(dir, init, item, e);
    }
  }

  /** Listing a directory that holds the file `save_template` wrote for a
      name with no slash in it finds that template under its own name, with
      the creation time saved in it. */
  lemma {:induction false} SavedTemplateListed(name: string, ws: Settings, es: Settings, now: string,
                                               dir: PurePath, listing: Listing)
    requires WellFormed(dir) && name != "" && '/' !in name
    requires (name + ".json", Some(VObj(TemplateDocument(ws, es, now)))) in listing
    ensures TemplateEntry(name, Str(Div(dir, name + ".json")), VStr(now)) in Listed(dir, listing)
  {
    var file := name + ".json";
    JsonStem(name);
    var item := (file, Some(VObj(TemplateDocument(ws, es, now))));
    var e := TemplateEntry(name, Str(Div(dir, file)), VStr(now));
    assert Describes(dir, item, e);
    ListedComplete(dir, listing, item, e);
  }

  /** The stem of `<name>.json` is `name` for any non-empty name, and the
      file name is not hidden or empty. */
  lemma {:induction false} JsonStem(name: string)
    requires name != ""
    ensures EndsWith(name + ".json", ".json")
    ensures Stem(name + ".json") == name && Suffix(name + ".json") == ".json"
  {
    var n := name + ".json";
    assert n[|name|] == '.';
    assert forall k :: |name| < k < |n| ==> n[k] == ".json"[k - |name|] != '.';
    assert RFind(n, '.') == |name|;
    assert n[..|name|] == name && n[|name|..] == ".json";
  }

  /** The path `save_template` returns is the directory joined with
      `<name>.json`; for a slash-free name it names that file. */
  lemma {:induction false} SavePathNamesFile(name: string, templateDir: Value, home: string)
    requires name != "" && '/' !in name
    requires TemplateDir(templateDir, home).Ok?
    ensures var dir := TemplateDir(templateDir, home).value;
      && SaveTemplatePath(name, templateDir, home) == Ok(Str(Div(dir, name + ".json")))
      && Name(Div(dir, name + ".json")) == name + ".json"
      && Parent(Div(dir, name + ".json")) == dir
  {
    var n := name + ".json";
    var dir := TemplateDir(templateDir, home).value;
    assert '/' !in ".json";
    assert n != "." by { assert |n| >= 6; }
    ParseSinglePart(n);
    var p := Div(dir, n);
    assert p == PurePath(dir.anchor, dir.parts + [n]);
    assert p.parts[..|dir.parts|] == dir.parts;
  }
}

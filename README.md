# Image watermarker — a Dafny model

This project models the decision logic of the image-watermarker
repository. The repository has three entry points:

- `watermark_cli_v2.py`: the `WatermarkProcessor` command-line tool.
- `watermark_gui.py`: the `WatermarkGUI` tkinter application.
- `watermark.py`: the original single-purpose script.

The model does not cover pixels. It describes everything the three decide
around them:

- where the text goes for each of the nine anchors;
- which draw commands the compositor issues, in which colour and order;
- how an EXIF date is normalised;
- which files the extension filters accept;
- which output path each variant derives;
- how templates and saved settings are written, listed and merged;
- the bookkeeping of the two batch loops (one result per image, failure
  isolation, progress reports, the success count, the temporary `text`
  swap);
- how the GUI grows its image list without duplicates.

The modules follow the program:

- `Values`: settings dictionaries as maps from key to a JSON-like value,
  the exceptions, and the two default dictionaries.
- `PyStr`: the Python string operations the code relies on.
- `Paths`: `pathlib.PurePosixPath` and `os.path`.
- `Position`: the position calculators.
- `Compositor`: the draw plan.
- `OutputPath`: the output-path resolvers of the tool and the GUI.
- `ExifDate`: the date normalisation.
- `Discovery`: `find_images`, the folder-import and drop filters, and
  the script's filter.
- `Templates`: template documents and `list_templates`.
- `Cli`: the `WatermarkProcessor` class, `load_template`,
  `process_image` and `process_batch`.
- `Gui`: the `WatermarkGui` class and its operations.
- `Script`: `watermark.py`.

Code that changes state in place is modelled as methods on a class, with
`modifies` clauses:

- the processor's and the GUI's settings dictionaries;
- the GUI's image list;
- the loops of `process_batch`, `export_thread`, `add_images`,
  `list_templates`, `find_images` and the outline loop.

Each such method is proved against a function that states its whole
result. The properties are proved about those functions.

What the outside world does is an input, one value per image:

- whether `Image.open` succeeds, and the image's size and mode;
- the EXIF `DateTimeOriginal` tag;
- the size `textbbox` measures;
- whether the directory creation and the save succeed;
- the parsed JSON documents;
- the directory listings;
- the current date and time;
- the home directory;
- what the dialogs return.

Every value read from a settings dictionary goes through
`Values.Get`, `GetOr`, `GetInt` or `GetStr` (`GetOr` for the reads made with
`.get`). These reads happen in the order the
source performs them. A missing key therefore raises `KeyError` at the
same point, and a value of the wrong type raises at the same point.

Two points where the model follows the code rather than the comments:

- The GUI's `export_thread` has no `finally` around the `text` swap. An
  image whose drawing raises therefore leaves its date in the `text`
  setting. `Gui.ExportRunText` states which date remains.
- The reset in `add_images` is commented as happening on the first
  import. It happens whenever the list ends up exactly as long as the
  input.

## Model

| member | source | states |
|---|---|---|
| Values.Get | watermark_cli_v2.py:82-84 | `d[key]` succeeds exactly when the key is present and gives its value; otherwise it raises `KeyError` for that key |
| Values.AsInt | watermark_cli_v2.py:112 | a value used in integer arithmetic succeeds exactly for integers and booleans (the integer as it is); anything else is a `TypeError` |
| Values.GetInt | watermark_cli_v2.py:112 | a missing key raises `KeyError`; an integer value is read as it is |
| Values.GetStr | watermark_cli_v2.py:209-211 | a read used in string concatenation succeeds exactly when the key holds a string, and gives that string |
| Values.Update | watermark_cli_v2.py:300 | `dict.update`: the keys are the union; every key of the update takes its new value; every other key keeps its value |
| Values.UpdateFrom | watermark_cli_v2.py:300-303 | merging a parsed section succeeds exactly when it is a JSON object, and then it is `dict.update` with its fields |
| PyStr.Slice | watermark_cli_v2.py:139 | `s[i:j]` has the clamped length and holds the characters from `i` on |
| PyStr.FirstField | watermark_cli_v2.py:57 | `split(sep)[0]` is the longest prefix without `sep`, and is followed by `sep` when shorter than the string |
| PyStr.ReplaceChar | watermark_cli_v2.py:57 | `replace(a, b)` keeps the length and changes exactly the characters equal to `a` |
| PyStr.Lower | watermark_cli_v2.py:70 | `lower()` keeps the length and lower-cases each ASCII letter in place |
| PyStr.Upper | watermark_cli_v2.py:75 | `upper()` keeps the length and upper-cases each ASCII letter in place |
| PyStr.ParseHexField | watermark_cli_v2.py:139 | `int(field, 16)` of a field of at most two characters, when it parses, lies in -15..255 |
| PyStr.HexPairValue | watermark_cli_v2.py:139 | two hexadecimal digits always parse to 16 times the first plus the second |
| Paths.Parse | watermark_cli_v2.py:195 | `Path(s)` is well formed: its anchor is "", "/" or "//", and its parts are non-empty and slash-free and are not "." |
| Paths.Suffix | watermark_cli_v2.py:70 | `suffix` is empty, or starts with the name's last dot and has one more character at least |
| Paths.Stem | watermark_cli_v2.py:205 | `stem` followed by `suffix` is the name |
| Paths.Parent | watermark_cli_v2.py:200 | `parent` of a well-formed path is well formed |
| Paths.Div | watermark_cli_v2.py:219 | `p / s` of a well-formed path is well formed |
| Paths.ParseStr | watermark_cli_v2.py:249 | printing any well-formed path with `str` and parsing the text back gives the same path |
| Paths.ParseSinglePart | watermark_cli_v2.py:219 | a slash-free, non-empty name other than "." parses to a relative path of that one part |
| Paths.Basename | watermark_gui.py:332 | `basename` is slash-free and ends the path |
| Paths.Dirname | watermark_gui.py:636 | `dirname` is empty exactly when the path has no slash |
| Paths.Splitext | watermark_gui.py:662 | `splitext` gives a root and an extension that concatenate to the path; the extension is empty or starts with its only dot and holds no slash |
| Position.Half | watermark_cli_v2.py:88 | `a // 2` is the floor of the half, for negative `a` too |
| Position.SelectedAnchorSelects | watermark_cli_v2.py:98 | the anchor chosen for a position string is the one it names, or bottom-right for any other string |
| Position.TableMatchesPlace | watermark_cli_v2.py:86-96 | every anchor's entry in the position table equals the reference placement, which places each axis on its own |
| Position.TableKeys | watermark_cli_v2.py:86-96 | the table's keys are exactly the nine anchor names |
| Position.LookupPlaces | watermark_cli_v2.py:98 | looking up any hashable position gives the reference placement of the anchor it selects; an unknown name gives bottom-right |
| Position.CliPositionPlaces | watermark_cli_v2.py:80-98 | for integer margins the tool places the text by the reference formula with `x_offset`/`y_offset`; unknown positions land bottom-right |
| Position.GuiPositionPlaces | watermark_gui.py:525-542 | the GUI places the text by the reference formula with both margins 10, whatever `x_offset` and `y_offset` hold |
| Position.CliPositionErrors | watermark_cli_v2.py:82-98 | a missing `x_offset` raises `KeyError`, a non-numeric margin raises for every anchor, and a list position is unhashable |
| Position.CentredAxisIgnoresMargin | watermark_cli_v2.py:86-96 | a centred axis does not depend on its margin; a left edge sits at the margin; a right edge leaves the margin to the border |
| Position.NoClamping | watermark_cli_v2.py:86-96 | nothing is clamped: text wider than the image gets a negative x on right-hand and centred anchors |
| Position.CentreFixture | watermark_cli_v2.py:91 | the centre of an 800x600 image for a 100x20 text is (350, 290) |
| Compositor.TruncDiv | watermark_cli_v2.py:140 | `int(n / d)` truncates toward zero: the quotient is the floor for non-negative `n` and the ceiling for negative `n` |
| Compositor.Alpha | watermark_cli_v2.py:140 | alpha lies in 0..255 for opacity 0..100 |
| Compositor.AlphaValues | watermark_cli_v2.py:140 | for non-negative opacity alpha is `(255*opacity)//100`; it is odd in the opacity; 50 gives 127, 99 gives 252 and -5 gives -12 |
| Compositor.FillColor | watermark_cli_v2.py:135-141 | at full opacity the colour setting is passed through untouched; below it a successful fill is an RGBA tuple with `int(255*opacity/100)` as alpha |
| Compositor.FillColorErrors | watermark_cli_v2.py:136-141 | below full opacity: a non-string colour raises; a string without `#` raises (a string plus a tuple); a `#` colour whose fields do not parse raises; so does `#FFF` |
| Compositor.HexColorChannels | watermark_cli_v2.py:138-139 | a `#RRGGBB` colour parses to its three two-digit channels, whatever follows the seventh character |
| Compositor.HexColorRoundTrip | watermark_cli_v2.py:139 | formatting any three channels 0..255 as `#RRGGBB` and parsing the text gives the channels back |
| Compositor.PlanShape | watermark_cli_v2.py:144-158 | with outline on, the first eight commands are the offset copies in `dx`-then-`dy` loop order; a shadow comes next at (+2, +2); the fill at (x, y) is always last; the count is 1, 2, 9 or 10 |
| Compositor.DrawOutline | watermark_cli_v2.py:146-150 | the nested `dx`/`dy` loop issues exactly the eight offset copies of the ring, in loop order |
| Compositor.AddWatermarkToImage | watermark_cli_v2.py:100-166 | the tool's compositor, drawing step by step, issues exactly the plan that `CliCompose` describes, or raises the same error |
| Compositor.CliComposeDecides | watermark_cli_v2.py:100-166 | for well-typed settings: an empty text leaves the image unchanged; otherwise the plan is at the anchor formula; at full opacity black/gray decorations surround the colour as given; below it the `#` colour gets alpha, the outline the same alpha and the shadow half of it, on an overlay; a colour without `#` raises; the mode is kept |
| Compositor.CliTextFallback | watermark_cli_v2.py:102-103 | composing with `text=None` is composing with the `text` setting |
| Compositor.GuiComposeDecides | watermark_gui.py:469-523 | the GUI issues exactly one command, at the margin-10 placement, with the fill the opacity rule gives; no outline or shadow; a colour error raises; the mode is kept |
| OutputPath.NewStem | watermark_cli_v2.py:206-211 | without a `naming_option` setting the renaming raises `KeyError` |
| OutputPath.Extension | watermark_cli_v2.py:214-217 | the extension is `.jpg` exactly when `output_format` is `JPEG`, `.png` otherwise, whatever the input's extension |
| OutputPath.CliOutputDir | watermark_cli_v2.py:197-200 | the output directory is always a well-formed path |
| OutputPath.CliOutputNaming | watermark_cli_v2.py:193-219 | the tool writes the renamed stem plus the format's extension into `output_dir` when truthy, else into `<parent>/watermarked`; for a slash-free new stem the name, stem, suffix and directory read back from the result |
| OutputPath.GuiOutputNaming | watermark_gui.py:659-678 | the GUI writes `join(output_dir, renamed splitext root + extension)`; for a plain directory and stem, `dirname`, `basename` and `splitext` read the parts back |
| OutputPath.JoinReadBack | watermark_gui.py:678 | `join(dir, stem + ext)` splits back into `dir`, `stem + ext` and the extension |
| OutputPath.StemAndSplitextDiffer | watermark_gui.py:662 | the two resolvers part ways on `photo.`: pathlib sees no suffix, `splitext` splits off the dot |
| ExifDate.Normalise | watermark_cli_v2.py:57 | the normalised date holds no space and no colon, and is no longer than the tag |
| ExifDate.ClassExifDate | watermark_cli_v2.py:50-62 | a present tag is normalised, even to the empty string; an absent one gives today's date |
| ExifDate.ScriptExifDate | watermark.py:6-16 | the script's date is today's date, or a non-empty normalised tag |
| ExifDate.VariantsDiffer | watermark.py:13-15 | the class and script variants differ exactly on a tag whose first field is empty (an empty tag or one starting with a space), with a non-empty today |
| ExifDate.StampToDate | watermark_cli_v2.py:57 | an EXIF stamp `YYYY:MM:DD HH:MM:SS` normalises to `YYYY-MM-DD` |
| Templates.TemplateDir | watermark_cli_v2.py:307-310 | the template directory is the given one when it is a non-empty string, else `~/.watermark_templates` |
| Templates.TemplateDocument | watermark_cli_v2.py:283-287 | the saved document has exactly the sections `watermark`, `export` and `created_at`, holding the two dictionaries and the time |
| Templates.SavePathNamesFile | watermark_cli_v2.py:273-292 | `save_template` returns the directory joined with `<name>.json`, whose name and parent read back for a slash-free name |
| Templates.ListTemplates | watermark_cli_v2.py:305-328 | a missing directory lists nothing; otherwise the loop lists exactly the entries `Listed` gives for the directory listing, in order |
| Templates.EntryForDescribes | watermark_cli_v2.py:316-326 | a directory entry contributes exactly the entry it describes, if any, and at most one |
| Templates.ListedEntries | watermark_cli_v2.py:315-326 | an entry is listed exactly when some `*.json` file holding an object describes it (stem as name, `created_at` or `Unknown`); unreadable files are skipped; there are never more entries than files |
| Templates.JsonStem | watermark_cli_v2.py:321 | the stem of `<name>.json` is the name, for any non-empty name |
| Templates.SavedTemplateListed | watermark_cli_v2.py:315-324 | a template saved under a slash-free name is listed under that name with its saved creation time |
| Discovery.Sort | watermark_cli_v2.py:78 | `sorted` gives an ordered permutation of its input |
| Discovery.SortMembers | watermark_cli_v2.py:78 | sorting keeps exactly the members |
| Discovery.GlobDirectory | watermark_cli_v2.py:72-76 | the twelve globs, taken in turn, give the concatenation of their matches: exactly the files below the directory whose names end in an all-lower or all-upper supported extension |
| Discovery.AllFormatsGlob | watermark_cli_v2.py:73-75 | the lower and upper globs of the six extensions accept exactly the names ending in one of the twelve spellings |
| Discovery.FindImages | watermark_cli_v2.py:64-78 | the result is sorted; a file is kept when its suffix in any case is supported; a missing path gives nothing; a directory gives the glob matches, sorted, each as often as the globs found it |
| Discovery.ImportFolderFiles | watermark_gui.py:310-313 | folder import keeps exactly the walked files whose own suffix, lower-cased, is supported, joined to their root |
| Discovery.WalkEndings | watermark_gui.py:796-799 | a dropped folder gives exactly the walked files whose lower-cased names end in a supported extension |
| Discovery.DropOutput | watermark_gui.py:789-799 | a dropped item gives exactly what it yields: a file with an accepted ending, or its folder's accepted files |
| Discovery.DroppedFiles | watermark_gui.py:784-799 | the drop handler collects exactly the files some dropped item yields |
| Discovery.SuffixImpliesEnding | watermark_gui.py:312 | every name the suffix filter accepts, the ending filter accepts too |
| Discovery.HiddenFileFilters | watermark_gui.py:792 | `.jpg` as a whole name is rejected by the suffix filter but accepted by the ending filter and the glob |
| Discovery.MixedCaseFilters | watermark_cli_v2.py:73-75 | a mixed-case name such as `photo.Jpg` passes the suffix and ending filters but none of the directory globs |
| Discovery.ScriptFilter | watermark.py:52 | the script accepts a subset of what the GUI accepts, and no BMP or TIFF file |
| Cli.LoadTemplateMerges | watermark_cli_v2.py:294-303 | for object sections, each present section overwrites exactly its keys and keeps the others; a missing section leaves its dictionary unchanged |
| Cli.LoadTemplateFailures | watermark_cli_v2.py:296-303 | an unreadable file changes nothing; a non-object `watermark` section changes nothing; a non-object `export` section fails after `watermark` was merged |
| Cli.SaveLoadRoundTrip | watermark_cli_v2.py:273-303 | loading what `save_template` wrote, into a processor holding no key the saved one lacked, restores the saved settings with no error |
| Cli.ProcessImage | watermark_cli_v2.py:221-252 | every failure comes out wrapped with the input path; a success is what the steps produce |
| Cli.ProcessedImage | watermark_cli_v2.py:221-249 | a processed image opened, had its directory created and was saved at the `generate_output_path` path, in the format `output_format` names, with the JPEG quality for JPEG; it keeps its mode except that a JPEG is never RGBA; it carries the composition of the EXIF date or the `text` setting |
| Cli.ResultFor | watermark_cli_v2.py:261-268 | a result records its input; a success carries the path the image was saved to, and a failure carries the error processing raised |
| Cli.BatchResults | watermark_cli_v2.py:254-271 | a batch has exactly one result per input |
| Cli.BatchEntryOutcome | watermark_cli_v2.py:258-268 | each entry of a batch records its input; a success's output is the path `generate_output_path` gives for it, and a failure's error is that input's wrapped exception |
| Cli.BatchResultsAt | watermark_cli_v2.py:259-268 | the i-th result is the i-th input's own outcome, so one failure does not affect the others |
| Cli.ProgressReportsSuccesses | watermark_cli_v2.py:264-265 | every progress call reports a success as `(i + 1, total, input)`; there is at most one call per result |
| Cli.ProgressIncreasing | watermark_cli_v2.py:259-265 | progress calls come in strictly increasing position |
| Cli.ProgressCallCount | watermark_cli_v2.py:264-265 | with a callback there is exactly one call per success |
| Cli.ProgressComplete | watermark_cli_v2.py:261-265 | with a callback, every success is reported, and its call comes right after the calls for the earlier successes |
| Cli.WatermarkProcessor.constructor | watermark_cli_v2.py:17-48 | a processor starts from the default watermark and export settings |
| Cli.WatermarkProcessor.LoadTemplate | watermark_cli_v2.py:294-303 | merging in place leaves the settings, and the error raised, that the load function gives, and keeps every default key |
| Cli.WatermarkProcessor.ProcessBatch | watermark_cli_v2.py:254-271 | the loop returns the batch results and makes exactly the progress calls the progress function gives, whatever the `output_dir` argument |
| Gui.PathsOf | watermark_gui.py:323 | the listed paths, one per image, in order |
| Gui.AddedInOrder | watermark_gui.py:320-346 | existing entries are untouched; each new entry comes from an input that opened, at an increasing, distinct input position; the list grows by at most `len(file_paths)` |
| Gui.AddedNoDuplicates | watermark_gui.py:322-323 | no path is listed twice afterwards if none was before, even when the input repeats a path |
| Gui.AddedMembers | watermark_gui.py:322-346 | a path is listed afterwards exactly when it was listed before or is an input that opened |
| Gui.ResetOnRepeatImport | watermark_gui.py:348-351 | re-adding a listed image with one new image gives a list as long as the input, so the first-import reset fires again |
| Gui.FormValues | watermark_gui.py:402-408 | the form writes exactly the five keys `text`, `font_size`, `color`, `opacity` and `position` |
| Gui.FormUpdate | watermark_gui.py:400-408 | `update_watermark_settings` overwrites exactly the five form keys with the form's values; every other key keeps its value |
| Gui.GuiTemplateMerge | watermark_gui.py:709-715 | an unreadable template fails; an object is merged with `dict.update`; any other document raises |
| Gui.GuiTemplateRoundTrip | watermark_gui.py:688-715 | a template the GUI saved loads back as the saved settings, into settings with no key the saved ones lack |
| Gui.CliTemplateInGui | watermark_gui.py:715 | a template the tool saved does not restore its settings in the GUI: its three sections land as keys in the watermark settings |
| Gui.GuiTemplateInCli | watermark_cli_v2.py:299-303 | a GUI template has no sections, so the tool loads it without error and without change |
| Gui.SavedMatchesCliLoad | watermark_gui.py:739-751 | on an object document the GUI's saved-settings load gives the same settings as the tool's template load |
| Gui.SettingsRoundTrip | watermark_gui.py:753-764 | settings saved on closing come back at the next start |
| Gui.ExportStepText | watermark_gui.py:625-632 | after one image the text is restored, unless a dated drawing raised, which leaves that image's date |
| Gui.ExportRun | watermark_gui.py:616-651 | the export produces exactly one outcome per image |
| Gui.CountOk | watermark_gui.py:645 | the success count is at most the number of images, and equals it exactly when no image raised |
| Gui.ProgressTo | watermark_gui.py:650 | the progress bar takes the values 1, 2, ..., n in order |
| Gui.ExportRunText | watermark_gui.py:625-630 | the text left after the loop is the date of the last image whose dated drawing raised, or the original text, which outside auto-date mode never changes |
| Gui.ExportRunIsolated | watermark_gui.py:616-648 | each image's outcome is the one it has on its own, whatever came before it |
| Gui.TextRestored | watermark_gui.py:625-630 | when no dated drawing raises, the export leaves the text as it was |
| Gui.WatermarkGui.constructor | watermark_gui.py:20-64 | the GUI starts with no images, index 0, and the defaults merged with the saved settings file |
| Gui.WatermarkGui.AddImages | watermark_gui.py:320-351 | the loop appends exactly what the add function gives; the current index goes to 0 exactly when the list is as long as the input; the settings are untouched |
| Gui.WatermarkGui.UpdateWatermarkSettings | watermark_gui.py:400-408 | the watermark settings become the form update of the old ones; nothing else changes |
| Gui.WatermarkGui.LoadTemplate | watermark_gui.py:696-721 | nothing changes without a template directory or a chosen file; otherwise a merge that succeeds replaces the watermark settings and a failure is reported with nothing changed |
| Gui.WatermarkGui.LoadDefaultSettings | watermark_gui.py:739-751 | the settings become the saved-settings merge of the old ones; a failure keeps what was already merged |
| Gui.WatermarkGui.ExportImage | watermark_gui.py:617-648 | one image's outcome and the text it leaves are those of the export step |
| Gui.WatermarkGui.ExportNext | watermark_gui.py:616-650 | one more image extends the results, the success count and the progress by that image's step |
| Gui.WatermarkGui.ExportThread | watermark_gui.py:614-651 | the loop gives one outcome per image as the run describes; the success count counts the images that raised nothing; the progress is 1..n in order; only `text` may change |
| Gui.WatermarkGui.ExportAll | watermark_gui.py:587-657 | nothing happens without images or an output directory (a chosen one is stored first); otherwise the export loop runs with auto-date exactly when the text field holds the auto-date label |
| Script.ScriptPositionAgrees | watermark.py:29-34 | the script agrees with the classes' margin-10 table on `top_left` and on every other name (which lands bottom-right); on `center` it uses the exact halves, whose floors are the classes' values |
| Script.ScriptMovesAnchors | watermark.py:29-34 | `top_right` and `middle_left` land bottom-right in the script, though the classes place `top_right` at the top |
| Script.AddWatermark | watermark.py:18-40 | the text is drawn as given, in the given colour, at the script's position for the anchor; the output directory is created exactly when the output path has a slash, and it is that path's non-empty `dirname`; the image is saved at the output path |
| Script.DirectoryJobRuns | watermark.py:50-58 | every accepted file of a directory is processed, since the date falls back to the non-empty current date |
| Script.DirOutputReadBack | watermark.py:56-57 | directory mode keeps the file name, inside the `<basename(dir)>_watermark` subdirectory |
| Script.TrailingSlashDirectory | watermark.py:56 | a directory given with a trailing slash has an empty base name, so its output goes to `<dir>/_watermark/<file>` |
| Script.FileOutputReadBack | watermark.py:64-65 | single-file mode writes in the input's directory with the input's extension, `_watermark` appended to the root |

## Left out

- Pixel work: the drawing itself, `alpha_composite`, `convert`, `save` and
  JPEG encoding. The model keeps the draw commands, the layer they go on
  and the resulting mode.
- Text measurement and fonts: `textbbox`, `get_font`
  (watermark_cli_v2.py:168-191) and the `truetype` fallbacks. The measured
  size is an input. For the script it is the box's right and bottom
  corner, which is what that code uses as the size.
- The EXIF read through `exifread` and the clocks (`datetime.now`,
  `date.today`, `isoformat`). The tag and the current date or time are
  inputs.
- `ScriptExifDate`: the script raises when the image cannot be opened to
  read its tag. The model takes the tag as given and does not model that
  failure.
- The tkinter interface: widgets, menus, the tree view, the preview,
  dialogs and message boxes. This includes `load_current_image`,
  `update_preview`, `resize_for_preview`, `on_file_select`,
  `update_ui_from_settings` (watermark_gui.py:728-737) and
  `manage_templates`. An error raised while refreshing the form after a
  merge is not modelled.
- `export_current` (watermark_gui.py:551-585). It saves one image to a
  path picked in a dialog, and its logic is the export step of
  `export_thread`.
- The thread of `export_all`. The export is modelled as the sequential
  loop it runs. The text field is read once rather than at each image.
- The command-line `progress_callback` formatting and `create_parser` and
  `main` with their printing (watermark_cli_v2.py:330-497).
- The argument parsing and printing of watermark.py's `main`, and its
  `os.listdir` loop. One listed file is modelled as `DirectoryJob`; the
  single-file branch is modelled as `FileJob`.
- The file system: directory walks, globbing, `mkdir`/`makedirs`, and
  reading and writing JSON. Listings, existence checks, parse results and
  the success of each creation or save are inputs. A listing is taken in
  the order given, and the order of `supported_formats` is fixed as
  `.jpg, .jpeg, .png, .bmp, .tiff, .tif`, which the sort erases.
- Case-insensitive file systems. The globs of `find_images` match by case
  here, as on Linux. On other systems they would also match mixed case,
  and find a file twice.
- Windows paths and `~` expansion. Paths follow POSIX rules, and the home
  directory is an input. Suffixes and stems follow pathlib's rule up to
  Python 3.13.
- JSON numbers that are not integers, and Unicode beyond ASCII: the case
  mapping of `lower()` and `upper()`, and the non-ASCII decimal digits
  that `int(field, 16)` also accepts (`PyStr.ParseHexField` rejects
  them as a bad colour).
- `Values.UpdateFrom`, `Gui.GuiTemplateMerge` and `Gui.MergeSaved`:
  `dict.update` also accepts a JSON array of two-element key/value pairs,
  and the empty string, which merges nothing (watermark_cli_v2.py:300-303,
  watermark_gui.py:715, 749-750). The model treats every document or
  section that is not an object as an error.
- `Cli.WatermarkProcessor.ProcessBatch` and `Cli.BatchResults`: the
  progress callback is assumed not to raise. In the source it is called
  inside the `try` (watermark_cli_v2.py:264-265), so a raising callback
  would add a second, failing result for the same input, after its
  success.
- `Cli.ProcessSteps`: `dirOk` stands for both directory creations of
  `process_image`, the one in `get_output_path` (watermark_cli_v2.py:202)
  and the one before the save (line 239). They can differ when the new
  stem holds a slash, and when the naming raises the first creation has
  already happened; the model checks the one flag once, before naming.
- The settings `rotation`, `bold`, `italic`, `font_family` and `resize_*`.
  They are stored, saved and loaded, but nothing shown reads them.
- The GUI `save_template` (watermark_gui.py:680-694). Its file is named by
  `GuiTemplateFile`. Only the document it writes, the watermark settings
  alone, takes part in the round-trip lemmas.
- tools/generate_link_pdf.py. It only draws a PDF.
- `Position.CliPositionPlaces`: it is stated for integer margins. Boolean
  margins, which Python reads as 0 and 1, are accepted by the function but
  not restated by the lemma.
- `Compositor.CliComposeDecides`: it is stated for settings of working
  types. The errors for missing or mistyped settings are stated by
  `Position.CliPositionErrors` and `Compositor.FillColorErrors`.

/** Settings values, the errors the core can raise, and the two settings
    dictionaries every entry point starts from (watermark_cli_v2.py:19-48,
    watermark_gui.py:33-61). A settings dictionary is a map from key to a
    JSON-like value, because templates loaded from disk can put any JSON
    value under any key. */
module Values {

  /** The JSON-like values a settings dictionary can hold. JSON numbers that
      are not integers are not part of this model. */
  datatype Value =
    | VNull
    | VBool(b: bool)
    | VInt(i: int)
    | VStr(s: string)
    | VArr(elems: seq<Value>)
    | VObj(fields: map<string, Value>)

  type Settings = map<string, Value>

  datatype Option<+T> = None | Some(value: T)

  /** The exceptions the modelled code raises, by cause. */
  datatype Error =
    | KeyMissing(key: string)          // KeyError on a settings dictionary
    | WrongType(key: string)           // TypeError / AttributeError on a settings value
    | BadHexColor(color: string)       // ValueError from int(..., 16)
    | ColorNotTuple(color: string)     // str + tuple in the alpha step
    | Unhashable                       // a list or dict used as a dictionary key
    | TextNotString                    // the text measured or drawn is not a string
    | OpenFailed(path: string)         // Image.open raised
    | SaveFailed(path: string)         // mkdir or Image.save raised
    | NoDirectory                      // os.makedirs('') raises FileNotFoundError
    | Unparseable                      // a file that could not be read or parsed as a JSON object
    | ProcessFailed(input: string, cause: Error)  // the wrapper exception of process_image

  datatype Result<+T> = Ok(value: T) | Err(error: Error) {
    predicate IsFailure() { Err? }
    function PropagateFailure<U>(): Result<U> requires Err? { Err(error) }
    function Extract(): T requires Ok? { value }
  }

  /** Python truthiness of a value. */
  predicate Truthy(v: Value) {
    match v
    case VNull => false
    case VBool(b) => b
    case VInt(i) => i != 0
    case VStr(s) => s != ""
    case VArr(e) => e != []
    case VObj(f) => f != map[]
  }

  /** `d[key]`: a missing key raises KeyError. */
  function Get(d: Settings, key: string): (r: Result<Value>)
    ensures r.Ok? <==> key in d
    ensures r.Ok? ==> r.value == d[key]
    ensures r.Err? ==> r.error == KeyMissing(key)
  {
    if key in d then Ok(d[key]) else Err(KeyMissing(key))
  }

  /** `d.get(key)`: a missing key reads as None. */
  function GetOr(d: Settings, key: string, default: Value): Value {
    if key in d then d[key] else default
  }

  /** A value used in integer arithmetic or an integer comparison: Python
      treats booleans as 0 and 1 there; anything else raises TypeError. */
  function AsInt(key: string, v: Value): (r: Result<int>)
    ensures r.Ok? <==> v.VInt? || v.VBool?
    ensures v.VInt? ==> r == Ok(v.i)
    ensures r.Err? ==> r.error == WrongType(key)
  {
    match v
    case VInt(i) => Ok(i)
    case VBool(b) => Ok(if b then 1 else 0)
    case _ => Err(WrongType(key))
  }

  /** `d[key]` read as an integer. */
  function GetInt(d: Settings, key: string): (r: Result<int>)
    ensures key !in d ==> r == Err(KeyMissing(key))
    ensures key in d && d[key].VInt? ==> r == Ok(d[key].i)
  {
    var v :- Get(d, key);
    AsInt(key, v)
  }

  /** `d[key]` used where only a string works (concatenation, a method call). */
  function GetStr(d: Settings, key: string): (r: Result<string>)
    ensures r.Ok? <==> key in d && d[key].VStr?
    ensures r.Ok? ==> r.value == d[key].s
  {
    var v :- Get(d, key);
    if v.VStr? then Ok(v.s) else Err(WrongType(key))
  }

  /** `dict.update(other)`: every key of `other` is overwritten, every other
      key keeps its value, and no key disappears. */
  function Update(d: Settings, other: Settings): (r: Settings)
    ensures r.Keys == d.Keys + other.Keys
    ensures forall k :: k in other ==> r[k] == other[k]
    ensures forall k :: k in d && k !in other ==> r[k] == d[k]
  {
    d + other
  }

  /** `dict.update(v)` where `v` came out of a parsed document: only a JSON
      object can be merged; anything else raises. */
  function UpdateFrom(d: Settings, key: string, v: Value): (r: Result<Settings>)
    ensures r.Ok? <==> v.VObj?
    ensures r.Ok? ==> r.value == Update(d, v.fields)
  {
    if v.VObj? then Ok(Update(d, v.fields)) else Err(WrongType(key))
  }

  /** The initial watermark settings (watermark_cli_v2.py:19-33,
      watermark_gui.py:33-47: the two are identical). */
  function DefaultWatermarkSettings(): Settings {
    map[
      "text" := VStr(""),
      "font_size" := VInt(36),
      "font_family" := VStr("Arial"),
      "color" := VStr("#FFFFFF"),
      "opacity" := VInt(100),
      "position" := VStr("bottom_right"),
      "x_offset" := VInt(10),
      "y_offset" := VInt(10),
      "rotation" := VInt(0),
      "bold" := VBool(false),
      "italic" := VBool(false),
      "shadow" := VBool(false),
      "outline" := VBool(false)
    ]
  }

  /** The initial export settings (watermark_cli_v2.py:35-46,
      watermark_gui.py:50-61). */
  function DefaultExportSettings(): Settings {
    map[
      "output_dir" := VStr(""),
      "naming_option" := VStr("suffix"),
      "custom_prefix" := VStr("wm_"),
      "custom_suffix" := VStr("_watermarked"),
      "output_format" := VStr("JPEG"),
      "jpeg_quality" := VInt(95),
      "resize_enabled" := VBool(false),
      "resize_width" := VInt(0),
      "resize_height" := VInt(0),
      "resize_percent" := VInt(100)
    ]
  }
}

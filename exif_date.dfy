/** The EXIF date normalisation of the three entry points
    (watermark_cli_v2.py:50-62, watermark_gui.py:381-393,
    watermark.py:6-16). Reading the tag and the clock are inputs: `tag` is
    the `DateTimeOriginal` text when present, `today` the formatted
    current date. */
module ExifDate {
  import opened Values
  import opened PyStr

  /** `s.split(' ')[0].replace(':', '-')`. */
  function Normalise(s: string): (r: string)
    ensures ' ' !in r && ':' !in r
    ensures |r| <= |s|
  {
    ReplaceChar(FirstField(s, ' '), ':', '-')
  }

  /** The class methods: a present tag is normalised, even when that gives
      the empty string; otherwise today. */
  function ClassExifDate(tag: Option<string>, today: string): (r: string)
    ensures tag.Some? ==> r == Normalise(tag.value)
    ensures tag.None? ==> r == today
  {
    if tag.Some? then Normalise(tag.value) else today
  }

  /** The script's function: an empty normalised date also falls back to
      today. */
  function ScriptExifDate(tag: Option<string>, today: string): (r: string)
    ensures r == today || (tag.Some? && r == Normalise(tag.value) != "")
  {
    var date := if tag.Some? then Normalise(tag.value) else "";
    if date == "" then today else date
  }

  /** The two variants agree except on a tag whose first field is empty
      (one that starts with a space, or is empty), where the classes return
      "" and the script returns today. */
  lemma {:induction false} VariantsDiffer(tag: Option<string>, today: string)
    ensures ClassExifDate(tag, today) != ScriptExifDate(tag, today) <==>
              tag.Some? && Normalise(tag.value) == "" && today != ""
    ensures tag.Some? ==> (Normalise(tag.value) == "" <==> tag.value == "" || tag.value[0] == ' ')
  {
    if tag.Some? && tag.value != "" && tag.value[0] != ' ' {
      assert FirstField(tag.value, ' ') != "";
    }
  }

  /** An EXIF `YYYY:MM:DD HH:MM:SS` stamp normalises to `YYYY-MM-DD`. */
  lemma {:induction false} StampToDate(date: seq<string>, time: string)
    requires |date| == 3 && |date[0]| == 4 && |date[1]| == 2 && |date[2]| == 2
    requires forall i, k :: 0 <= i < 3 && 0 <= k < |date[i]| ==> '0' <= date[i][k] <= '9'
    ensures Normalise(date[0] + ":" + date[1] + ":" + date[2] + " " + time) == date[0] + "-" + date[1] + "-" + date[2]
  {
    var d := date[0] + ":" + date[1] + ":" + date[2];
    var s := d + " " + time;
    assert |d| == 10;
    assert forall k :: 0 <= k < 10 ==> s[k] == d[k] != ' ' by {
      forall k | 0 <= k < 10 ensures d[k] != ' ' {
        if k < 4 { assert d[k] == date[0][k]; }
        else if k == 4 || k == 7 { }
        else if k < 7 { assert d[k] == date[1][k - 5]; }
        else { assert d[k] == date[2][k - 8]; }
      }
    }
    assert s[10] == ' ';
    assert Find(s, ' ') == 10;
    assert FirstField(s, ' ') == d;
    var r := ReplaceChar(d, ':', '-');
    var e := date[0] + "-" + date[1] + "-" + date[2];
    forall k | 0 <= k < 10 ensures r[k] == e[k] {
      if k < 4 { assert d[k] == date[0][k] == e[k]; }
      else if k == 4 || k == 7 { }
      else if k < 7 { assert d[k] == date[1][k - 5] == e[k]; }
      else { assert d[k] == date[2][k - 8] == e[k]; }
    }
  }
}

/** Path handling as the core uses it: `pathlib.PurePosixPath` (parsing,
    `str`, `name`, `stem`, `suffix`, `parent`, `/`) for the command-line
    tool, and the string functions of `os.path` (`basename`, `dirname`,
    `splitext`, `join`) for the GUI and the first script. POSIX rules only. */
module Paths {
  import opened PyStr

  // ---------------------------------------------------------------- pathlib

  /** A pure POSIX path: its anchor ("" for a relative path, "/", or "//",
      which POSIX keeps when exactly two slashes lead) and its parts. */
  datatype PurePath = PurePath(anchor: string, parts: seq<string>)

  predicate IsPart(s: string) {
    s != "" && s != "." && '/' !in s
  }

  predicate WellFormed(p: PurePath) {
    p.anchor in {"", "/", "//"} && forall k :: 0 <= k < |p.parts| ==> IsPart(p.parts[k])
  }

  /** `s.split('/')`. */
  function SplitSlash(s: string): (r: seq<string>)
    ensures |r| >= 1
    ensures forall k :: 0 <= k < |r| ==> '/' !in r[k]
    decreases |s|
  {
    var i := Find(s, '/');
    if i < 0 then [s] else [s[..i]] + SplitSlash(s[i + 1..])
  }

  /** `'/'.join(xs)`. */
  function JoinSlash(xs: seq<string>): string {
    if xs == [] then ""
    else if |xs| == 1 then xs[0]
    else xs[0] + "/" + JoinSlash(xs[1..])
  }

  /** The parts pathlib keeps: empty and "." components are dropped. */
  function KeepParts(xs: seq<string>): (r: seq<string>)
    requires forall k :: 0 <= k < |xs| ==> '/' !in xs[k]
    ensures forall k :: 0 <= k < |r| ==> IsPart(r[k])
    ensures (forall k :: 0 <= k < |xs| ==> IsPart(xs[k])) ==> r == xs
  {
    if xs == [] then []
    else (if IsPart(xs[0]) then [xs[0]] else []) + KeepParts(xs[1..])
  }

  function LStripSlash(s: string): (r: string)
    ensures |r| <= |s| && r == s[|s| - |r|..]
    ensures r == [] || r[0] != '/'
  {
    if s != [] && s[0] == '/' then LStripSlash(s[1..]) else s
  }

  /** The anchor and the rest of a path string (posixpath.splitroot). */
  function SplitRoot(s: string): (string, string) {
    if !StartsWith(s, "/") then ("", s)
    else if Slice(s, 1, 2) != "/" || Slice(s, 2, 3) == "/" then ("/", LStripSlash(s))
    else ("//", s[2..])
  }

  /** `PurePosixPath(s)`. */
  function Parse(s: string): (p: PurePath)
    ensures WellFormed(p)
  {
    var (anchor, rest) := SplitRoot(s);
    PurePath(anchor, KeepParts(SplitSlash(rest)))
  }

  /** `str(p)`. */
  function Str(p: PurePath): string {
    if p.anchor == "" && p.parts == [] then "." else p.anchor + JoinSlash(p.parts)
  }

  /** `p.name`: the last part, or "" for a path that is only an anchor. */
  function Name(p: PurePath): string {
    if p.parts == [] then "" else p.parts[|p.parts| - 1]
  }

  /** `p.suffix` of a name: from its last dot, unless that dot leads the
      name or ends it. */
  function Suffix(name: string): (r: string)
    ensures r == "" || (r[0] == '.' && '.' !in r[1..] && |r| >= 2)
  {
    var i := RFind(name, '.');
    if 0 < i < |name| - 1 then name[i..] else ""
  }

  /** `p.stem` of a name: the name without its suffix. */
  function Stem(name: string): (r: string)
    ensures r + Suffix(name) == name
  {
    var i := RFind(name, '.');
    if 0 < i < |name| - 1 then name[..i] else name
  }

  /** `p.parent`: an anchor-only path is its own parent. */
  function Parent(p: PurePath): (r: PurePath)
    requires WellFormed(p)
    ensures WellFormed(r)
  {
    if p.parts == [] then p else PurePath(p.anchor, p.parts[..|p.parts| - 1])
  }

  /** `p / q`: an absolute `q` replaces `p`. */
  function Join(p: PurePath, q: PurePath): (r: PurePath)
    requires WellFormed(p) && WellFormed(q)
    ensures WellFormed(r)
  {
    if q.anchor != "" then q else PurePath(p.anchor, p.parts + q.parts)
  }

  /** `p / s` for a string `s`. */
  function Div(p: PurePath, s: string): (r: PurePath)
    requires WellFormed(p)
    ensures WellFormed(r)
  {
    Join(p, Parse(s))
  }

  lemma {:induction false} FindAfterSlashFree(a: string, t: string)
    requires '/' !in a
    ensures Find(a + "/" + t, '/') == |a|
    ensures (a + "/" + t)[..|a|] == a && (a + "/" + t)[|a| + 1..] == t
  {
    var s := a + "/" + t;
    assert s[|a|] == '/';
    assert forall k :: 0 <= k < |a| ==> s[k] == a[k] && s[k] != '/';
  }

  lemma {:induction false} SplitJoin(xs: seq<string>)
    requires xs != []
    requires forall k :: 0 <= k < |xs| ==> '/' !in xs[k]
    ensures SplitSlash(JoinSlash(xs)) == xs
  {
    if |xs| == 1 {
      assert Find(xs[0], '/') < 0;
    } else {
      FindAfterSlashFree(xs[0], JoinSlash(xs[1..]));
      SplitJoin(xs[1..]);
      assert xs == [xs[0]] + xs[1..];
    }
  }

  /** Joining parts gives text that splits back into them and does not
      start with a slash. */
  lemma {:induction false} JoinedParts(ps: seq<string>)
    requires ps != [] && forall k :: 0 <= k < |ps| ==> IsPart(ps[k])
    ensures var j := JoinSlash(ps);
      SplitSlash(j) == ps && j != [] && j[0] != '/'
  {
    SplitJoin(ps);
    assert IsPart(ps[0]) && ps[0][0] in ps[0];
    if |ps| > 1 {
      assert JoinSlash(ps) == ps[0] + "/" + JoinSlash(ps[1..]);
      assert JoinSlash(ps)[0] == ps[0][0];
    }
  }

  /** The empty split and the `.` split keep no parts. */
  lemma {:induction false} NoParts()
    ensures KeepParts(SplitSlash("")) == [] && KeepParts(SplitSlash(".")) == []
  {
    assert Find("", '/') < 0 && Find(".", '/') < 0;
    assert SplitSlash("") == [""] && SplitSlash(".") == ["."];
    assert !IsPart("") && !IsPart(".");
    assert KeepParts([""]) == [] + KeepParts([]);
    assert KeepParts(["."]) == [] + KeepParts([]);
  }

  lemma {:induction false} ParseStrRelative(ps: seq<string>)
    requires WellFormed(PurePath("", ps))
    ensures Parse(Str(PurePath("", ps))) == PurePath("", ps)
  {
    if ps == [] {
      NoParts();
      assert Str(PurePath("", ps)) == ".";
      assert SplitRoot(".") == ("", ".");
    } else {
      var j := JoinSlash(ps);
      JoinedParts(ps);
      assert Str(PurePath("", ps)) == j;
      assert !StartsWith(j, "/") by { assert j[..1] == [j[0]]; }
      assert SplitRoot(j) == ("", j);
      assert KeepParts(ps) == ps;
    }
  }

  lemma {:induction false} ParseStrRoot(ps: seq<string>)
    requires WellFormed(PurePath("/", ps))
    ensures Parse(Str(PurePath("/", ps))) == PurePath("/", ps)
  {
    var j := JoinSlash(ps);
    var s := "/" + j;
    assert Str(PurePath("/", ps)) == s;
    assert StartsWith(s, "/") by { assert s[..1] == "/"; }
    if ps == [] {
      NoParts();
      assert s == "/";
      assert LStripSlash("/") == LStripSlash("") == "";
      assert SplitRoot(s) == ("/", "");
    } else {
      JoinedParts(ps);
      assert Slice(s, 1, 2) == [j[0]];
      assert s[1..] == j;
      assert LStripSlash(s) == LStripSlash(j) == j;
      assert SplitRoot(s) == ("/", j);
      assert KeepParts(ps) == ps;
    }
  }

  lemma {:induction false} ParseStrDoubleRoot(ps: seq<string>)
    requires WellFormed(PurePath("//", ps))
    ensures Parse(Str(PurePath("//", ps))) == PurePath("//", ps)
  {
    var j := JoinSlash(ps);
    var s := "//" + j;
    assert Str(PurePath("//", ps)) == s;
    assert s[2..] == j;
    assert StartsWith(s, "/") by { assert s[..1] == "/"; }
    assert Slice(s, 1, 2) == "/";
    if ps == [] {
      NoParts();
      assert Slice(s, 2, 3) == "";
      assert SplitRoot(s) == ("//", "");
    } else {
      JoinedParts(ps);
      assert Slice(s, 2, 3) == [j[0]];
      assert SplitRoot(s) == ("//", j);
      assert KeepParts(ps) == ps;
    }
  }

  /** Printing a path and parsing the text back gives the same path. */
  lemma {:induction false} ParseStr(p: PurePath)
    requires WellFormed(p)
    ensures Parse(Str(p)) == p
  {
    if p.anchor == "" {
      ParseStrRelative(p.parts);
    } else if p.anchor == "/" {
      ParseStrRoot(p.parts);
    } else {
      ParseStrDoubleRoot(p.parts);
    }
  }

  /** A slash-free, non-empty name other than "." parses to a single part. */
  lemma {:induction false} ParseSinglePart(s: string)
    requires IsPart(s)
    ensures Parse(s) == PurePath("", [s])
  {
    assert Find(s, '/') < 0;
    assert SplitSlash(s) == [s];
    assert SplitRoot(s) == ("", s);
  }

  // ---------------------------------------------------------------- os.path

  /** `os.path.basename(p)`: everything after the last slash. */
  function Basename(p: string): (r: string)
    ensures '/' !in r
    ensures EndsWith(p, r)
  {
    p[RFind(p, '/') + 1..]
  }

  function RStripSlash(s: string): (r: string)
    ensures |r| <= |s| && r == s[..|r|]
    ensures r == [] || r[|r| - 1] != '/'
    ensures (exists k :: 0 <= k < |s| && s[k] != '/') ==> r != []
  {
    if s != [] && s[|s| - 1] == '/' then RStripSlash(s[..|s| - 1]) else s
  }

  /** `os.path.dirname(p)`: up to the last slash, without trailing slashes
      unless the head is nothing but slashes. */
  function Dirname(p: string): (r: string)
    ensures r == "" <==> '/' !in p
  {
    var i := RFind(p, '/');
    var head := p[..i + 1];
    if head != "" && exists k :: 0 <= k < |head| && head[k] != '/' then RStripSlash(head) else head
  }

  /** `os.path.splitext(p)`: split at the last dot of the last component,
      unless every character before that dot in the component is a dot. */
  function Splitext(p: string): (r: (string, string))
    ensures r.0 + r.1 == p
    ensures r.1 == "" || (r.1[0] == '.' && '.' !in r.1[1..] && '/' !in r.1)
  {
    var s := RFind(p, '/');
    var d := RFind(p, '.');
    if d > s && exists k :: s + 1 <= k < d && p[k] != '.' then (p[..d], p[d..]) else (p, "")
  }

  /** `os.path.join(a, b)`: an absolute `b` replaces `a`; otherwise one
      slash separates them unless `a` is empty or already ends in one. */
  function OsJoin(a: string, b: string): string {
    if StartsWith(b, "/") then b
    else if a == "" || EndsWith(a, "/") then a + b
    else a + "/" + b
  }
}

/**
 * The resource compiler `rc.py`: it reads a JSON manifest that declares
 * bitmap resources (an id and an image file each) and output pairs (a C
 * source file, a C header file and the ids they carry), turns every bitmap
 * into a packed monochrome table for the gfx_mono library, and writes the
 * source/header pairs with include guards and a generated-file notice. An
 * optional dependency file lists, per output pair, the image files it was
 * built from.
 *
 * This module holds the values a run deals with (decoded JSON, failures,
 * files written), path and guard arithmetic, and the bitmap encoder
 * (`Bitmap.build`). The manifest walk (`ResourceParser`) is in
 * `RcManifest`.
 */
module RcCompiler {
  import opened Base

  // ---------------------------------------------------------------------
  // Decoded JSON and Python truthiness
  // ---------------------------------------------------------------------

  /**
   * A value as `json.load` returns it. Numbers are integers; an object
   * keeps its keys in document order and has each key once.
   */
  datatype Json =
    | JNull
    | JBool(b: bool)
    | JInt(i: int)
    | JStr(s: string)
    | JArr(items: seq<Json>)
    | JObj(fields: seq<(string, Json)>)

  /** `bool(v)`: `None`, `False`, `0` and empty strings, lists and dicts are false. */
  predicate Truthy(j: Json) {
    match j
    case JNull => false
    case JBool(b) => b
    case JInt(i) => i != 0
    case JStr(s) => s != []
    case JArr(items) => items != []
    case JObj(fields) => fields != []
  }

  /** `d.get(key, default)`. */
  function Get(fields: seq<(string, Json)>, key: string, default: Json): (r: Json)
    ensures (forall i :: 0 <= i < |fields| ==> fields[i].0 != key) ==> r == default
  {
    if fields == [] then default
    else if fields[0].0 == key then fields[0].1
    else Get(fields[1..], key, default)
  }

  /**
   * The values a `for` loop over `j` visits: the items of a list, the keys
   * of a dict, the one-character strings of a string; `None` where Python
   * raises `TypeError` instead.
   */
  function Iter(j: Json): (r: Option<seq<Json>>)
    ensures r.Some? <==> (j.JStr? || j.JArr? || j.JObj?)
    ensures j.JArr? ==> r == Some(j.items)
  {
    match j
    case JStr(s) => Some(seq(|s|, i requires 0 <= i < |s| => JStr([s[i]])))
    case JArr(items) => Some(items)
    case JObj(fields) => Some(seq(|fields|, i requires 0 <= i < |fields| => JStr(fields[i].0)))
    case _ => None
  }

  /** Strings as the Python values a list of them holds. */
  function Lift(lines: seq<string>): (r: seq<Json>)
    ensures |r| == |lines|
    ensures forall i :: 0 <= i < |lines| ==> r[i] == JStr(lines[i])
  {
    seq(|lines|, i requires 0 <= i < |lines| => JStr(lines[i]))
  }

  lemma LiftAppend(a: seq<string>, b: seq<string>)
    ensures Lift(a + b) == Lift(a) + Lift(b)
  {
  }

  // ---------------------------------------------------------------------
  // Failures
  // ---------------------------------------------------------------------

  /**
   * Why a run stops. All but `Uncaught` are reported as `Failed: <message>`
   * (a `ParserException`, a `FileNotFoundError` or a `JSONDecodeError`);
   * `Uncaught` is an exception the program does not catch. Both end with
   * exit status 1.
   */
  datatype Error =
    | NotADictionary
    | MissingType
    | InvalidType(kind: Json)
    | MissingId
    | InvalidId(id: string)
    | MissingSource(id: string)
    | NoSuchFile(path: string)
    | OddHeight
    | MissingOutput
    | UndeclaredId(which: Json)
    | CannotCreate(path: string)
    | BadJson
    | Uncaught(exception: Exception)

  datatype Exception =
    | TypeMismatch     // TypeError or AttributeError on a value of the wrong JSON type
    | IndexOutOfRange  // a pixel read past the right edge of the image
    | UnreadableImage  // the image library cannot decode the file

  datatype Outcome<T> = Ok(value: T) | Err(error: Error)

  /** A file created (or truncated) and given `content`. */
  datatype Write = Write(path: string, content: string)

  /** The files written by a step, and how the step ended. */
  datatype Effects<T> = Effects(writes: seq<Write>, outcome: Outcome<T>)

  // ---------------------------------------------------------------------
  // Text helpers
  // ---------------------------------------------------------------------

  /** `sep.join(parts)`. */
  function Join(sep: string, parts: seq<string>): (r: string)
    ensures parts == [] ==> r == ""
    ensures |parts| == 1 ==> r == parts[0]
  {
    if parts == [] then "" else if |parts| == 1 then parts[0] else parts[0] + sep + Join(sep, parts[1..])
  }

  /** `"\n".join(lines)`, or `None` when a line is not a string (`TypeError`). */
  function JoinLines(lines: seq<Json>): (r: Option<string>)
    ensures r.Some? <==> forall i :: 0 <= i < |lines| ==> lines[i].JStr?
  {
    if forall i :: 0 <= i < |lines| ==> lines[i].JStr?
    then Some(Join("\n", seq(|lines|, i requires 0 <= i < |lines| && lines[i].JStr? => lines[i].s)))
    else None
  }

  lemma JoinLinesLift(lines: seq<string>)
    ensures JoinLines(Lift(lines)) == Some(Join("\n", lines))
  {
    var l := Lift(lines);
    assert seq(|l|, i requires 0 <= i < |l| && l[i].JStr? => l[i].s) == lines;
  }

  /** `s.replace('.', '__')`. */
  function ReplaceDots(s: string): (r: string)
    ensures '.' !in r
  {
    if s == [] then [] else (if s[0] == '.' then "__" else [s[0]]) + ReplaceDots(s[1..])
  }

  predicate WordChar(c: char) {
    'a' <= c <= 'z' || 'A' <= c <= 'Z' || '0' <= c <= '9' || c == '_'
  }

  // ---------------------------------------------------------------------
  // POSIX paths, as `pathlib.PurePosixPath` parses and prints them
  // ---------------------------------------------------------------------

  /** The root of a path: `//` for exactly two leading slashes, `/` for one or more than two. */
  function Root(s: string): (r: string)
    ensures r == "" || r == "/" || r == "//"
    ensures r == "" <==> (s == [] || s[0] != '/')
  {
    if |s| >= 2 && s[0] == '/' && s[1] == '/' && (|s| == 2 || s[2] != '/') then "//"
    else if |s| >= 1 && s[0] == '/' then "/"
    else ""
  }

  /** `s.split('/')`. */
  function Fields(s: string): (r: seq<string>)
    ensures |r| > 0
    ensures forall i, k :: 0 <= i < |r| && 0 <= k < |r[i]| ==> r[i][k] != '/' && r[i][k] in s
  {
    if s == [] then [""]
    else
      var f, c := Fields(s[..|s| - 1]), s[|s| - 1];
      if c == '/' then f + [""] else f[..|f| - 1] + [f[|f| - 1] + [c]]
  }

  /** The named components: empty fields and `.` are dropped. */
  function Names(fields: seq<string>): (r: seq<string>)
    ensures forall i :: 0 <= i < |r| ==> r[i] in fields && r[i] != "" && r[i] != "."
  {
    if fields == [] then []
    else (if fields[0] == "" || fields[0] == "." then [] else [fields[0]]) + Names(fields[1..])
  }

  /** `Path(s).parts`: the root, if any, then the named components. */
  function Parts(s: string): seq<string> {
    (if Root(s) == "" then [] else [Root(s)]) + Names(Fields(s))
  }

  /** `str()` of a path with the given root and components. */
  function PathText(root: string, names: seq<string>): string {
    if root == "" && names == [] then "." else root + Join("/", names)
  }

  /**
   * `Resource.__init__`'s file name: an absolute `source` stands alone, a
   * relative one is taken from the manifest's parent directory.
   */
  function SourcePath(manifest: string, source: string): string {
    if Root(source) != "" then PathText(Root(source), Names(Fields(source)))
    else
      var dir := Names(Fields(manifest));
      var parent := if dir == [] then [] else dir[..|dir| - 1];
      PathText(Root(manifest), parent + Names(Fields(source)))
  }

  // ---------------------------------------------------------------------
  // Generated-file headers and footers (get_src_code, get_inc_code)
  // ---------------------------------------------------------------------

  function Notice(argv0: string): string {
    "// This file was generated by " + argv0 + ". Do not edit."
  }

  /** The include-guard token of a header: its path parts joined by `__`, each `.` made `__`. */
  function GuardToken(header: string): string {
    ReplaceDots(Join("__", Parts(header)))
  }

  function GuardMacro(header: string): string {
    GuardToken(header) + "_was_included"
  }

  /** `get_src_code`: the notice opening a C source file, or the end-of-file footer. */
  function SrcCode(isHeader: bool, argv0: string): (r: seq<string>)
    ensures isHeader ==> r == [Notice(argv0)]
    ensures !isHeader ==> r == ["", "// End of file", ""]
  {
    if isHeader then [Notice(argv0)] else ["", "// End of file", ""]
  }

  /** `get_inc_code`: the guard opening a header and the notice, or the guard's end. */
  function IncCode(header: string, isHeader: bool, argv0: string): (r: seq<string>)
  {
    var macro := GuardMacro(header);
    if isHeader then ["#ifndef " + macro, "#define " + macro, "", Notice(argv0)]
    else ["", "#endif // ndef " + macro, ""]
  }

  /** The guard opened by a header's opening lines is the one its closing lines end, and has no `.`. */
  lemma GuardPairs(header: string, argv0: string)
    ensures var open, close := IncCode(header, true, argv0), IncCode(header, false, argv0);
      open[0] == "#ifndef " + GuardMacro(header) && open[1] == "#define " + GuardMacro(header) &&
      close[1] == "#endif // ndef " + GuardMacro(header) && '.' !in GuardToken(header)
  {
  }

  lemma {:induction false} JoinChars(sep: string, parts: seq<string>, c: char)
    requires c in Join(sep, parts)
    ensures c in sep || exists i, k :: 0 <= i < |parts| && 0 <= k < |parts[i]| && parts[i][k] == c
    decreases |parts|
  {
    if |parts| <= 1 {
      if |parts| == 1 {
        var k :| 0 <= k < |parts[0]| && parts[0][k] == c;
      }
    } else {
      var rest := Join(sep, parts[1..]);
      assert Join(sep, parts) == parts[0] + sep + rest;
      if c in parts[0] {
        var k :| 0 <= k < |parts[0]| && parts[0][k] == c;
      } else if c !in sep {
        assert c in rest;
        JoinChars(sep, parts[1..], c);
        var i, k :| 0 <= i < |parts[1..]| && 0 <= k < |parts[1..][i]| && parts[1..][i][k] == c;
        assert parts[i + 1][k] == c;
      }
    }
  }

  lemma {:induction false} ReplaceDotsChars(s: string, c: char)
    requires c in ReplaceDots(s)
    ensures c == '_' || (c in s && c != '.')
    decreases |s|
  {
    if s != [] {
      var head := if s[0] == '.' then "__" else [s[0]];
      assert ReplaceDots(s) == head + ReplaceDots(s[1..]);
      if c !in head {
        ReplaceDotsChars(s[1..], c);
      }
    }
  }

  /**
   * A relative header path made of word characters, dots and slashes
   * gives a guard made of word characters only, as a C macro name needs.
   */
  lemma GuardIsWord(header: string)
    requires header != [] && header[0] != '/'
    requires forall k :: 0 <= k < |header| ==> WordChar(header[k]) || header[k] == '.' || header[k] == '/'
    ensures forall k :: 0 <= k < |GuardToken(header)| ==> WordChar(GuardToken(header)[k])
  {
    var parts := Parts(header);
    assert parts == Names(Fields(header));
    forall k | 0 <= k < |GuardToken(header)|
      ensures WordChar(GuardToken(header)[k])
    {
      var c := GuardToken(header)[k];
      ReplaceDotsChars(Join("__", parts), c);
      if c != '_' {
        JoinChars("__", parts, c);
        var i, j :| 0 <= i < |parts| && 0 <= j < |parts[i]| && parts[i][j] == c;
        NameChars(header, i, j);
      }
    }
  }

  /** A character of a named component is a character of the path other than `/`. */
  lemma NameChars(header: string, i: int, j: int)
    requires 0 <= i < |Names(Fields(header))| && 0 <= j < |Names(Fields(header))[i]|
    ensures Names(Fields(header))[i][j] in header && Names(Fields(header))[i][j] != '/'
  {
    var f :| 0 <= f < |Fields(header)| && Fields(header)[f] == Names(Fields(header))[i];
    assert Fields(header)[f][j] == Names(Fields(header))[i][j];
  }

  // ---------------------------------------------------------------------
  // Resource ids: `VALID_ID.match(id)` with VALID_ID = `\w(\w_)*`
  // ---------------------------------------------------------------------

  /**
   * `\w` in a `str` pattern of Python 3: the ASCII letters, digits and
   * `_`, and every character past ASCII that the Unicode database counts
   * as a letter or a digit. That database is not part of this model:
   * `unicodeWord` says which characters past ASCII it accepts.
   */
  predicate PyWord(unicodeWord: char -> bool, c: char) {
    WordChar(c) || (c as int >= 128 && unicodeWord(c))
  }

  /** `t` is in the language of `\w(\w_)*`: a word character, then word-character/underscore pairs. */
  predicate InPattern(unicodeWord: char -> bool, t: string) {
    |t| % 2 == 1 && PyWord(unicodeWord, t[0]) &&
    forall i :: 1 <= i < |t| ==> if i % 2 == 1 then PyWord(unicodeWord, t[i]) else t[i] == '_'
  }

  /** `re.match` anchors only at the start: some prefix of `id` is in the pattern's language. */
  predicate IdMatches(unicodeWord: char -> bool, id: string) {
    exists n :: 1 <= n <= |id| && InPattern(unicodeWord, id[..n])
  }

  /**
   * So an id passes exactly when its first character is a word character;
   * for an id that starts with an ASCII character, the Unicode database
   * plays no part.
   */
  lemma IdMatchesIff(unicodeWord: char -> bool, id: string)
    ensures IdMatches(unicodeWord, id) <==> id != [] && PyWord(unicodeWord, id[0])
    ensures id != [] && id[0] as int < 128 ==> (IdMatches(unicodeWord, id) <==> WordChar(id[0]))
  {
    if id != [] && PyWord(unicodeWord, id[0]) {
      assert InPattern(unicodeWord, id[..1]);
    }
    if IdMatches(unicodeWord, id) {
      var n :| 1 <= n <= |id| && InPattern(unicodeWord, id[..n]);
      assert id[..n][0] == id[0];
    }
  }

  // ---------------------------------------------------------------------
  // Bitmap encoding: the specification of Bitmap.build
  // ---------------------------------------------------------------------

  /**
   * An image as the pixel access object sees it, column by column:
   * `columns[x][y]` is the (8-bit grey) value at `new_im[x, y]`.
   */
  datatype Picture = Picture(width: nat, height: nat, columns: seq<seq<nat>>)

  predicate Shaped(g: seq<seq<nat>>, h: nat) {
    forall x :: 0 <= x < |g| ==> |g[x]| == h
  }

  type Image = p: Picture | |p.columns| == p.width && Shaped(p.columns, p.height) witness Picture(0, 0, [])

  /** A pixel after the first pass: any value above 0 becomes 1. */
  function Bin(v: nat): (r: nat)
    ensures r <= 1 && (r == 1 <==> v > 0)
  {
    if 0 < v then 1 else v
  }

  /** The digits of row `y` for the columns before `x`: `str()` of each binarised pixel. */
  function RowText(g: seq<seq<nat>>, h: nat, y: nat, x: nat): (r: string)
    requires Shaped(g, h) && y < h && x <= |g|
    ensures |r| == x
  {
    if x == 0 then "" else RowText(g, h, y, x - 1) + Decimal(Bin(g[x - 1][y]))
  }

  /** The comment line that shows row `y` of the image. */
  function CommentLine(g: seq<seq<nat>>, h: nat, y: nat): string
    requires Shaped(g, h) && y < h
  {
    "// " + RowText(g, h, y, |g|)
  }

  /** The comment lines of the rows before `y`. */
  function Comments(g: seq<seq<nat>>, h: nat, y: nat): (r: seq<string>)
    requires Shaped(g, h) && y <= h
    ensures |r| == y
  {
    if y == 0 then [] else Comments(g, h, y - 1) + [CommentLine(g, h, y - 1)]
  }

  /** Rows packed into one byte, and bytes written per table line. */
  const BAND: nat := 8
  const GROUP: nat := 8

  function Pow2(k: nat): (r: nat)
    ensures r >= 1
  {
    if k == 0 then 1 else 2 * Pow2(k - 1)
  }

  /** Binary digit `k` of `n`. */
  predicate Bit(n: nat, k: nat) {
    if k == 0 then n % 2 == 1 else Bit(n / 2, k - 1)
  }

  /** `sum(1 << k for k < n if pixel (x, y + k) is set)`. */
  function SetSum(g: seq<seq<nat>>, h: nat, x: nat, y: nat, n: nat): nat
    requires Shaped(g, h) && x < |g| && y + n <= h
  {
    if n == 0 then 0 else SetSum(g, h, x, y, n - 1) + (if g[x][y + n - 1] != 0 then Pow2(n - 1) else 0)
  }

  /** The byte for column `x` of the band of eight rows starting at `y`. */
  function ColumnByte(g: seq<seq<nat>>, h: nat, x: nat, y: nat): (r: nat)
    requires Shaped(g, h) && x < |g| && y + 8 <= h
    ensures r < 256
  {
    SetSumBelow(g, h, x, y, BAND);
    assert Pow2(BAND) == Pow2(8) == 256;
    SetSum(g, h, x, y, BAND)
  }

  lemma {:induction false} SetSumBelow(g: seq<seq<nat>>, h: nat, x: nat, y: nat, n: nat)
    requires Shaped(g, h) && x < |g| && y + n <= h
    ensures SetSum(g, h, x, y, n) < Pow2(n)
  {
    if n > 0 {
      SetSumBelow(g, h, x, y, n - 1);
    }
  }

  /** The lowest row is bit 0; the sum of the rows above it is the rest, shifted by one. */
  lemma {:induction false} SetSumSplit(g: seq<seq<nat>>, h: nat, x: nat, y: nat, n: nat)
    requires Shaped(g, h) && x < |g| && y + n <= h && n > 0
    ensures SetSum(g, h, x, y, n) == (if g[x][y] != 0 then 1 else 0) + 2 * SetSum(g, h, x, y + 1, n - 1)
  {
    if n > 1 {
      SetSumSplit(g, h, x, y, n - 1);
      assert Pow2(n - 1) == 2 * Pow2(n - 2);
    }
  }

  lemma {:induction false} SetSumBit(g: seq<seq<nat>>, h: nat, x: nat, y: nat, n: nat, k: nat)
    requires Shaped(g, h) && x < |g| && y + n <= h && k < n
    ensures Bit(SetSum(g, h, x, y, n), k) == (g[x][y + k] != 0)
    decreases k
  {
    SetSumSplit(g, h, x, y, n);
    var rest := SetSum(g, h, x, y + 1, n - 1);
    var b := if g[x][y] != 0 then 1 else 0;
    assert (b + 2 * rest) % 2 == b;
    if k > 0 {
      assert (b + 2 * rest) / 2 == rest;
      SetSumBit(g, h, x, y + 1, n - 1, k - 1);
    }
  }

  /** Each packed byte fits in eight bits, and its bit `k` is the pixel `k` rows down the band. */
  lemma ColumnByteBits(g: seq<seq<nat>>, h: nat, x: nat, y: nat, k: nat)
    requires Shaped(g, h) && x < |g| && y + 8 <= h && k < 8
    ensures Bit(ColumnByte(g, h, x, y), k) == (g[x][y + k] > 0)
  {
    SetSumBit(g, h, x, y, BAND, k);
  }

  /** A lower-case hexadecimal digit. */
  function HexDigit(d: nat): char
    requires d < 16
  {
    "0123456789abcdef"[d]
  }

  /** `"0x%.2x" % b`. */
  function Hex2(b: nat): (r: string)
    requires b < 256
    ensures |r| == 4
  {
    "0x" + [HexDigit(b / 16), HexDigit(b % 16)]
  }

  /** One byte of a table line and the separator after it: `,` after the eighth, `, ` otherwise. */
  function Item(b: nat, last: bool): (r: string)
    requires b < 256
    ensures |r| == (if last then 5 else 6)
  {
    Hex2(b) + (if last then "," else ", ")
  }

  predicate Bytes(bs: seq<nat>) {
    forall i :: 0 <= i < |bs| ==> bs[i] < 256
  }

  /** The items of a table line holding the bytes `bs`, the eighth one closed by `,`. */
  function Items(bs: seq<nat>): (r: string)
    requires Bytes(bs) && |bs| <= 8
    ensures |r| == 6 * |bs| - (if |bs| == 8 then 1 else 0)
  {
    if bs == [] then "" else Items(bs[..|bs| - 1]) + Item(bs[|bs| - 1], |bs| == 8)
  }

  /** The bytes of the group of eight columns from `x` in the band from row `y`. */
  function GroupBytes(g: seq<seq<nat>>, h: nat, x: nat, y: nat): (r: seq<nat>)
    requires Shaped(g, h) && x + 8 <= |g| && y + 8 <= h
    ensures |r| == 8 && Bytes(r)
  {
    var r := seq(GROUP, (z: int) requires 0 <= z < GROUP => ColumnByte(g, h, x + z, y));
    assert forall i :: 0 <= i < |r| ==> r[i] == ColumnByte(g, h, x + i, y) && r[i] < 256;
    r
  }

  /** The table line of one group of eight bytes. */
  function GroupLine(g: seq<seq<nat>>, h: nat, x: nat, y: nat): string
    requires Shaped(g, h) && x + 8 <= |g| && y + 8 <= h
  {
    "   " + Items(GroupBytes(g, h, x, y))
  }

  /** The table lines of the groups before column `x` in the band from row `y`. */
  function BandLines(g: seq<seq<nat>>, h: nat, y: nat, x: nat): (r: seq<string>)
    requires Shaped(g, h) && x % 8 == 0 && x <= |g| && y + 8 <= h
  {
    seq(x / 8, c requires 0 <= c < x / 8 => GroupLine(g, h, 8 * c, y))
  }

  /** The table lines of the bands above row `y`, band after band. */
  function TableLines(g: seq<seq<nat>>, h: nat, y: nat): seq<string>
    requires Shaped(g, h) && y % 8 == 0 && y <= h && (y == 0 || |g| % 8 == 0)
  {
    if y == 0 then [] else TableLines(g, h, y - 8) + BandLines(g, h, y - 8, |g|)
  }

  /** A table of `y / 8` bands holds `width / 8` lines per band. */
  lemma {:induction false} TableLinesLength(g: seq<seq<nat>>, h: nat, y: nat)
    requires Shaped(g, h) && y % 8 == 0 && y <= h && (y == 0 || |g| % 8 == 0)
    ensures |TableLines(g, h, y)| == (y / 8) * (|g| / 8)
  {
    if y > 0 {
      TableLinesLength(g, h, y - 8);
      var q := |g| / 8;
      assert (y / 8) * q == ((y - 8) / 8) * q + q;
    }
  }

  function TableOpen(id: string): string {
    "const gfx_mono_color_t PROGMEM " + id + "_header[] = {"
  }

  function Extern(id: string): string {
    "extern struct gfx_mono_bitmap " + id + "_bm;"
  }

  /** The bitmap descriptor that closes a bitmap's source. */
  function StructLines(id: string, width: nat, height: nat): seq<string> {
    [ "struct gfx_mono_bitmap " + id + "_bm = {",
      "   .width = " + Decimal(width) + ",",
      "   .height = " + Decimal(height) + ",",
      "   .type = GFX_MONO_BITMAP_PROGMEM,",
      "   {",
      "      .progmem = " + id + "_header",
      "   }",
      "};",
      "" ]
  }

  /** `s[:-1]`. */
  function DropLast(s: string): string {
    if s == [] then [] else s[..|s| - 1]
  }

  /** `lines[-1] = lines[-1][:-1]`. */
  function StripLast(lines: seq<string>): (r: seq<string>)
    requires lines != []
    ensures |r| == |lines| && r[..|r| - 1] == lines[..|lines| - 1]
  {
    lines[..|lines| - 1] + [DropLast(lines[|lines| - 1])]
  }

  lemma StripLastAppend(p: seq<string>, b: seq<string>)
    requires b != []
    ensures StripLast(p + b) == p + StripLast(b)
  {
    assert (p + b)[..|p + b| - 1] == p + b[..|b| - 1];
  }

  /** The C source lines `build` produces for bitmap `id`. */
  /** The table opening and its lines, with the last `,` (or, for no lines, the `{`) removed. */
  function TableBlock(id: string, t: seq<string>): seq<string> {
    StripLast([TableOpen(id)] + t)
  }

  /** The C source lines `build` produces for bitmap `id`. */
  function BitmapSource(id: string, g: seq<seq<nat>>, h: nat): seq<string>
    requires Shaped(g, h) && h % 8 == 0 && (h == 0 || |g| % 8 == 0)
  {
    Comments(g, h, h) + TableBlock(id, TableLines(g, h, h)) + (["};", ""] + StructLines(id, |g|, h))
  }

  // ---------------------------------------------------------------------
  // What the generated text says about the image
  // ---------------------------------------------------------------------

  /** Digit `x` of comment row `y` is `1` for a lit pixel and `0` for a dark one. */
  lemma {:induction false} RowTextAt(g: seq<seq<nat>>, h: nat, y: nat, n: nat, x: nat)
    requires Shaped(g, h) && y < h && x < n <= |g|
    ensures RowText(g, h, y, n)[x] == if g[x][y] > 0 then '1' else '0'
  {
    if x < n - 1 {
      RowTextAt(g, h, y, n - 1, x);
    } else {
      assert Decimal(Bin(g[x][y])) == if g[x][y] > 0 then "1" else "0";
    }
  }

  lemma {:induction false} CommentsAt(g: seq<seq<nat>>, h: nat, n: nat, y: nat)
    requires Shaped(g, h) && y < n <= h
    ensures Comments(g, h, n)[y] == CommentLine(g, h, y)
  {
    if y < n - 1 {
      CommentsAt(g, h, n - 1, y);
    }
  }

  /** One comment line per row, holding one `0` or `1` per pixel of the row. */
  lemma CommentShowsRow(g: seq<seq<nat>>, h: nat, y: nat, x: nat)
    requires Shaped(g, h) && y < h && x < |g|
    ensures Comments(g, h, h)[y] == "// " + RowText(g, h, y, |g|)
    ensures |Comments(g, h, h)[y]| == 3 + |g|
    ensures Comments(g, h, h)[y][3 + x] == if g[x][y] > 0 then '1' else '0'
  {
    CommentsAt(g, h, h, y);
    RowTextAt(g, h, y, |g|, x);
  }

  function HexValue(c: char): nat {
    if '0' <= c <= '9' then c as int - '0' as int
    else if 'a' <= c <= 'f' then c as int - 'a' as int + 10
    else 0
  }

  /** The number a `0xHH` item spells. */
  function ItemValue(t: string): nat
    requires |t| == 4
  {
    16 * HexValue(t[2]) + HexValue(t[3])
  }

  lemma Hex2Reads(b: nat)
    requires b < 256
    ensures ItemValue(Hex2(b)) == b
  {
    assert HexValue(HexDigit(b / 16)) == b / 16;
    assert HexValue(HexDigit(b % 16)) == b % 16;
  }

  lemma {:induction false} ItemsAt(bs: seq<nat>, z: nat)
    requires Bytes(bs) && z < |bs| <= 8
    ensures Items(bs)[6 * z .. 6 * z + 4] == Hex2(bs[z])
  {
    var head := bs[..|bs| - 1];
    assert Items(bs) == Items(head) + Item(bs[|bs| - 1], |bs| == 8);
    if z < |bs| - 1 {
      ItemsAt(head, z);
      assert Items(bs)[6 * z .. 6 * z + 4] == Items(head)[6 * z .. 6 * z + 4];
    }
  }

  /** Byte `z` of a group line sits at column `3 + 6 z`; the line ends with `,`. */
  lemma GroupLineAt(g: seq<seq<nat>>, h: nat, x: nat, y: nat, z: nat)
    requires Shaped(g, h) && x + 8 <= |g| && y + 8 <= h && z < 8
    ensures GroupLine(g, h, x, y)[3 + 6 * z .. 7 + 6 * z] == Hex2(ColumnByte(g, h, x + z, y))
    ensures |GroupLine(g, h, x, y)| == 50 && GroupLine(g, h, x, y)[49] == ','
  {
    var bs := GroupBytes(g, h, x, y);
    ItemsAt(bs, z);
    assert GroupLine(g, h, x, y)[3 + 6 * z .. 7 + 6 * z] == Items(bs)[6 * z .. 6 * z + 4];
    assert Items(bs) == Items(bs[..7]) + Item(bs[7], true);
  }

  lemma MulStep(b: nat, q: nat, c: nat, bands: nat)
    requires b < bands && c < q
    ensures b * q + c < bands * q
  {
    assert (b + 1) * q <= bands * q;
  }

  lemma {:induction false} TableLinesAt(g: seq<seq<nat>>, h: nat, n: nat, b: nat, c: nat)
    requires Shaped(g, h) && n % 8 == 0 && n <= h && |g| % 8 == 0
    requires b < n / 8 && c < |g| / 8
    ensures b * (|g| / 8) + c < |TableLines(g, h, n)|
    ensures TableLines(g, h, n)[b * (|g| / 8) + c] == GroupLine(g, h, 8 * c, 8 * b)
  {
    var q, m := |g| / 8, n / 8 - 1;
    assert (n - 8) / 8 == m;
    var before, band := TableLines(g, h, n - 8), BandLines(g, h, n - 8, |g|);
    assert TableLines(g, h, n) == before + band;
    TableLinesLength(g, h, n - 8);
    assert |before| == m * q;
    var i := b * q + c;
    if b < m {
      MulStep(b, q, c, m);
      TableLinesAt(g, h, n - 8, b, c);
      assert (before + band)[i] == before[i];
    } else {
      assert b == m;
      assert i == |before| + c;
      assert (before + band)[i] == band[c];
    }
  }

  /**
   * Reading the table back: the pixel at (x, y) is bit `y % 8` of the byte
   * written at column `3 + 6 (x % 8)` of line `(y / 8) (width / 8) + x / 8`
   * of the table, bit 0 being the band's top row.
   */
  lemma TableShowsPixel(g: seq<seq<nat>>, h: nat, x: nat, y: nat)
    requires Shaped(g, h) && h % 8 == 0 && |g| % 8 == 0 && x < |g| && y < h
    ensures var t := TableLines(g, h, h);
      var line := (y / 8) * (|g| / 8) + x / 8;
      line < |t| && |t[line]| == 50 &&
      Bit(ItemValue(t[line][3 + 6 * (x % 8) .. 7 + 6 * (x % 8)]), y % 8) == (g[x][y] > 0)
  {
    var col, rx, band, ry := x / 8, x % 8, y / 8, y % 8;
    assert 8 * col + rx == x && 8 * col + 8 <= |g|;
    assert 8 * band + ry == y && 8 * band + 8 <= h;
    ByteShowsPixel(g, h, col, rx, band, ry);
  }

  /** The pixel at column `rx` and row `ry` of group `col` of band `band`, read back from its table line. */
  lemma ByteShowsPixel(g: seq<seq<nat>>, h: nat, col: nat, rx: nat, band: nat, ry: nat)
    requires Shaped(g, h) && h % 8 == 0 && |g| % 8 == 0 && rx < 8 && ry < 8
    requires 8 * col + 8 <= |g| && 8 * band + 8 <= h
    ensures var t := TableLines(g, h, h);
      var line := band * (|g| / 8) + col;
      line < |t| && |t[line]| == 50 &&
      Bit(ItemValue(t[line][3 + 6 * rx .. 7 + 6 * rx]), ry) == (g[8 * col + rx][8 * band + ry] > 0)
  {
    TableLinesAt(g, h, h, band, col);
    GroupLineAt(g, h, 8 * col, 8 * band, rx);
    var b := ColumnByte(g, h, 8 * col + rx, 8 * band);
    Hex2Reads(b);
    ColumnByteBits(g, h, 8 * col + rx, 8 * band, ry);
  }

  /** A whole table holds width x height / 8 bytes, eight per line. */
  lemma TableSize(g: seq<seq<nat>>, h: nat)
    requires Shaped(g, h) && h % 8 == 0 && |g| % 8 == 0
    ensures 8 * |TableLines(g, h, h)| == |g| * h / 8
  {
    TableLinesLength(g, h, h);
    var a, b := |g| / 8, h / 8;
    assert |g| * h == 64 * (a * b);
  }

  /** Every table line holds eight bytes and ends with `,`. */
  lemma {:induction false} TableLineEnd(g: seq<seq<nat>>, h: nat, n: nat, i: nat)
    requires Shaped(g, h) && n % 8 == 0 && n <= h && |g| % 8 == 0 && i < |TableLines(g, h, n)|
    ensures |TableLines(g, h, n)[i]| == 50 && TableLines(g, h, n)[i][49] == ','
  {
    var before, band := TableLines(g, h, n - 8), BandLines(g, h, n - 8, |g|);
    assert TableLines(g, h, n) == before + band;
    if i < |before| {
      TableLineEnd(g, h, n - 8, i);
      assert (before + band)[i] == before[i];
    } else {
      GroupLineAt(g, h, 8 * (i - |before|), n - 8, 0);
      assert (before + band)[i] == band[i - |before|];
    }
  }

  /**
   * Removing the trailing `,`: a table with lines keeps its opening and
   * every line but the last whole, and the last line loses its `,`; a
   * table without lines loses the opening's `{` instead.
   */
  lemma TableBlockShape(id: string, t: seq<string>)
    requires t != [] ==> t[|t| - 1] != [] && t[|t| - 1][|t[|t| - 1]| - 1] == ','
    ensures var b := TableBlock(id, t);
      |b| == |t| + 1 &&
      (t == [] ==> b[0] + "{" == TableOpen(id)) &&
      (t != [] ==> b[0] == TableOpen(id) && b[1 .. |t|] == t[..|t| - 1] && b[|t|] + "," == t[|t| - 1])
  {
    var b := TableBlock(id, t);
    if t != [] {
      var last := t[|t| - 1];
      assert DropLast(last) + "," == last;
      assert b == [TableOpen(id)] + t[..|t| - 1] + [DropLast(last)];
    } else {
      assert b == [DropLast(TableOpen(id))];
    }
  }

  /**
   * The source of a bitmap: one comment line per row, the table block
   * (whose last line is a table line ending with `,` when the image is not
   * empty), then the closing lines and the descriptor with the image's size.
   */
  lemma SourceShape(id: string, g: seq<seq<nat>>, h: nat)
    requires Shaped(g, h) && h % 8 == 0 && (h == 0 || |g| % 8 == 0)
    ensures var src, t := BitmapSource(id, g, h), TableLines(g, h, h);
      |src| == h + |t| + 12 &&
      src[..h] == Comments(g, h, h) &&
      src[h .. h + |t| + 1] == TableBlock(id, t) &&
      src[h + |t| + 1 ..] == ["};", ""] + StructLines(id, |g|, h) &&
      (t != [] ==> t[|t| - 1] != [] && t[|t| - 1][|t[|t| - 1]| - 1] == ',')
  {
    var t := TableLines(g, h, h);
    var c, b, tail := Comments(g, h, h), TableBlock(id, t), ["};", ""] + StructLines(id, |g|, h);
    assert BitmapSource(id, g, h) == c + b + tail;
    if t != [] {
      TableLineEnd(g, h, h, |t| - 1);
    }
  }

  // ---------------------------------------------------------------------
  // Bitmap.build
  // ---------------------------------------------------------------------

  lemma AppendAssoc<T>(a: seq<T>, b: seq<T>, c: seq<T>)
    ensures a + b + c == a + (b + c)
  {
  }

  /** The pixels of the image, column by column. */
  function Grid(im: array2<nat>): (g: seq<seq<nat>>)
    reads im
    ensures |g| == im.Length0 && Shaped(g, im.Length1)
    ensures forall x, y :: 0 <= x < im.Length0 && 0 <= y < im.Length1 ==> g[x][y] == im[x, y]
  {
    seq(im.Length0, x requires 0 <= x < im.Length0 reads im =>
      seq(im.Length1, y requires 0 <= x < im.Length0 && 0 <= y < im.Length1 reads im => im[x, y]))
  }

  /** Every pixel of `im` is the binarised pixel of `g`. */
  ghost predicate Binarised(im: array2<nat>, g: seq<seq<nat>>)
    reads im
  {
    |g| == im.Length0 && Shaped(g, im.Length1) &&
    forall x, y :: 0 <= x < im.Length0 && 0 <= y < im.Length1 ==> im[x, y] == Bin(g[x][y])
  }

  /** A bitmap resource: its id, its image file and the code `build` generates for it. */
  class Bitmap {
    const id: string
    const sourceFile: string
    var src: seq<string>
    var inc: seq<string>

    constructor (id: string, sourceFile: string)
      ensures this.id == id && this.sourceFile == sourceFile && src == [] && inc == []
    {
      this.id := id;
      this.sourceFile := sourceFile;
      src := [];
      inc := [];
    }

    /**
     * `build`: binarises the pixels of `im` in place and appends the
     * bitmap's code to `src` and `inc`. An image whose width is not a
     * multiple of eight makes the packing read past the right edge.
     */
    method Build(im: array2<nat>) returns (r: Outcome<()>)
      modifies this, im
      ensures im.Length1 % 8 != 0 ==> r == Err(OddHeight) && src == old(src) && inc == old(inc) && unchanged(im)
      ensures im.Length1 % 8 == 0 && im.Length1 > 0 && im.Length0 % 8 != 0 ==> r == Err(Uncaught(IndexOutOfRange))
      ensures im.Length1 % 8 == 0 && (im.Length1 == 0 || im.Length0 % 8 == 0) ==>
        r == Ok(()) &&
        src == old(src) + BitmapSource(id, old(Grid(im)), im.Length1) &&
        inc == old(inc) + [Extern(id)] &&
        Binarised(im, old(Grid(im)))
    {
      var width, height := im.Length0, im.Length1;
      if height % 8 != 0 {
        return Err(OddHeight);
      }
      ghost var g := Grid(im);
      ghost var before := src;
      AppendComments(im, g);
      src := src + [TableOpen(id)];
      if height > 0 && width % 8 != 0 {
        // the last group of the first band reads columns past `width`
        return Err(Uncaught(IndexOutOfRange));
      }
      AppendTable(im, g);
      ghost var c, t := Comments(g, height, height), TableLines(g, height, height);
      assert src == before + c + ([TableOpen(id)] + t);
      StripLastAppend(before + c, [TableOpen(id)] + t);
      src := StripLast(src);
      assert src == before + c + TableBlock(id, t);
      src := src + ["};", ""];
      inc := inc + [Extern(id)];
      src := src + StructLines(id, width, height);
      ghost var block, close := TableBlock(id, t), ["};", ""] + StructLines(id, width, height);
      AppendAssoc(before + c + block, ["};", ""], StructLines(id, width, height));
      AppendAssoc(before, c + block, close);
      AppendAssoc(before, c, block);
      return Ok(());
    }

    /** The first pass: one comment line per row, binarising each pixel on the way. */
    method AppendComments(im: array2<nat>, ghost g: seq<seq<nat>>)
      requires g == Grid(im)
      modifies this, im
      ensures src == old(src) + Comments(g, im.Length1, im.Length1) && inc == old(inc)
      ensures Binarised(im, g)
    {
      var y := 0;
      while y < im.Length1
        invariant 0 <= y <= im.Length1
        invariant src == old(src) + Comments(g, im.Length1, y) && inc == old(inc)
        invariant forall x, y' :: 0 <= x < im.Length0 && 0 <= y' < im.Length1 ==>
          im[x, y'] == if y' < y then Bin(g[x][y']) else g[x][y']
      {
        var line := BinarizeRow(im, y, g);
        src := src + [line];
        y := y + 1;
      }
    }

    /** The second pass: one line per group of eight columns, band after band. */
    method AppendTable(im: array2<nat>, ghost g: seq<seq<nat>>)
      requires Binarised(im, g) && im.Length1 % 8 == 0 && (im.Length1 == 0 || im.Length0 % 8 == 0)
      modifies this
      ensures src == old(src) + TableLines(g, im.Length1, im.Length1) && inc == old(inc)
    {
      var y := 0;
      while y < im.Length1
        invariant 0 <= y <= im.Length1 && y % 8 == 0
        invariant src == old(src) + TableLines(g, im.Length1, y) && inc == old(inc)
      {
        ghost var done := src;
        AppendBand(im, y, g);
        assert src == old(src) + (TableLines(g, im.Length1, y) + BandLines(g, im.Length1, y, |g|));
        y := y + 8;
      }
    }

    /** The lines of the band of eight rows from `y`, one per group of eight columns. */
    method AppendBand(im: array2<nat>, y: nat, ghost g: seq<seq<nat>>)
      requires Binarised(im, g) && y + 8 <= im.Length1 && im.Length0 % 8 == 0
      modifies this
      ensures src == old(src) + BandLines(g, im.Length1, y, |g|) && inc == old(inc)
    {
      var x := 0;
      while x < im.Length0
        invariant 0 <= x <= im.Length0 && x % 8 == 0
        invariant src == old(src) + BandLines(g, im.Length1, y, x) && inc == old(inc)
      {
        var line := PackGroup(im, x, y, g);
        src := src + [line];
        assert src == old(src) + (BandLines(g, im.Length1, y, x) + [line]);
        x := x + 8;
      }
    }
  }

  /** Binarises row `y` of `im` and returns its comment line. */
  method BinarizeRow(im: array2<nat>, y: nat, ghost g: seq<seq<nat>>) returns (line: string)
    requires y < im.Length1 && |g| == im.Length0 && Shaped(g, im.Length1)
    requires forall x :: 0 <= x < im.Length0 ==> im[x, y] == g[x][y]
    modifies im
    ensures line == CommentLine(g, im.Length1, y)
    ensures forall x, y' :: 0 <= x < im.Length0 && 0 <= y' < im.Length1 ==>
      im[x, y'] == if y' == y then Bin(g[x][y]) else old(im[x, y'])
  {
    line := "// ";
    var x := 0;
    while x < im.Length0
      invariant 0 <= x <= im.Length0
      invariant line == "// " + RowText(g, im.Length1, y, x)
      invariant forall x', y' :: 0 <= x' < im.Length0 && 0 <= y' < im.Length1 ==>
        im[x', y'] == if y' == y && x' < x then Bin(g[x'][y]) else old(im[x', y'])
    {
      if 0 < im[x, y] {
        im[x, y] := 1;
      }
      line := line + Decimal(im[x, y]);
      x := x + 1;
    }
  }

  /** The table line of the group of eight columns from `x` in the band from row `y`. */
  method PackGroup(im: array2<nat>, x: nat, y: nat, ghost g: seq<seq<nat>>) returns (line: string)
    requires Binarised(im, g) && x + 8 <= im.Length0 && y + 8 <= im.Length1
    ensures line == GroupLine(g, im.Length1, x, y)
  {
    line := "   ";
    ghost var bs: seq<nat> := [];
    var z := 0;
    while z < 8
      invariant 0 <= z <= 8 && |bs| == z && Bytes(bs)
      invariant forall k :: 0 <= k < z ==> bs[k] == ColumnByte(g, im.Length1, x + k, y)
      invariant line == "   " + Items(bs)
    {
      var b := PackColumn(im, x + z, y, g);
      assert (bs + [b])[..z] == bs;
      line := line + Item(b, z == 7);
      bs := bs + [b];
      z := z + 1;
    }
    assert bs == GroupBytes(g, im.Length1, x, y);
  }

  /** The byte for column `x` of the band from row `y`: bit `k` is set for a lit pixel `k` rows down. */
  method PackColumn(im: array2<nat>, x: nat, y: nat, ghost g: seq<seq<nat>>) returns (b: nat)
    requires Binarised(im, g) && x < im.Length0 && y + 8 <= im.Length1
    ensures b == ColumnByte(g, im.Length1, x, y)
  {
    b := 0;
    var k := 0;
    var bit := 1;
    while k < 8
      invariant 0 <= k <= 8 && bit == Pow2(k)
      invariant b == SetSum(g, im.Length1, x, y, k)
    {
      if im[x, y + k] != 0 {
        b := b + bit;
      }
      bit := 2 * bit;
      k := k + 1;
    }
  }
}

/**
 * `ResourceParser` of `rc.py`: the walk over the manifest that checks and
 * builds every declared bitmap, then assembles and writes every output
 * pair, and `gen_deps`, which lists the image files each pair was made
 * from. The `__main__` block ties them together (`Run`).
 *
 * The outside world is a parameter (`Host`). Each step is specified by a
 * function on values (`Declare`, `LoadFrom`, `PairCode`, `AssembleFrom`,
 * `DepLines`); the class `ResourceParser` runs the source's loops and is
 * proved to do what those functions say.
 */
module RcManifest {
  import opened Base
  import opened RcCompiler

  // ---------------------------------------------------------------------
  // The outside world and the compiled resources
  // ---------------------------------------------------------------------

  /**
   * What a run sees of the outside world: the manifest path given on the
   * command line and, when it parses, its JSON value; the paths that
   * exist; the grey-level image each readable image file decodes to;
   * `sys.argv[0]`; the paths `open(path, "wt")` can create; and the
   * characters past ASCII that Python's Unicode database counts as
   * letters or digits, which `\w` accepts.
   */
  datatype Host = Host(
    manifestPath: string,
    manifest: Option<Json>,
    files: set<string>,
    images: map<string, Image>,
    argv0: string,
    creatable: set<string>,
    unicodeWord: char -> bool)

  /** A built bitmap: its resolved image file and its lines for the C source and the header. */
  datatype Compiled = Compiled(sourceFile: string, src: seq<string>, inc: seq<string>)

  // ---------------------------------------------------------------------
  // The resources: the `in` list
  // ---------------------------------------------------------------------

  /**
   * The checks made on one entry of `in` before it is built, in the
   * source's order: those of the manifest loop (a dictionary, a known
   * `type`, an `id` the pattern accepts) and then those of
   * `Resource.__init__` (a `source` naming a file that exists, taken
   * relative to the manifest's directory). The result is the id and the
   * resolved path.
   */
  function Declare(host: Host, res: Json): Outcome<(string, string)> {
    if !res.JObj? then Err(NotADictionary)
    else
      var kind := Get(res.fields, "type", JNull);
      var id := Get(res.fields, "id", JNull);
      var source := Get(res.fields, "source", JNull);
      if !Truthy(kind) then Err(MissingType)
      else if kind != JStr("bitmap") then Err(InvalidType(kind))
      else if !Truthy(id) then Err(MissingId)
      else if !id.JStr? then Err(Uncaught(TypeMismatch))
      else if !IdMatches(host.unicodeWord, id.s) then Err(InvalidId(id.s))
      else if !Truthy(source) then Err(MissingSource(id.s))
      else if !source.JStr? then Err(Uncaught(TypeMismatch))
      else
        var path := SourcePath(host.manifestPath, source.s);
        if path !in host.files then Err(NoSuchFile(path)) else Ok((id.s, path))
  }

  /** What `Bitmap.build` makes of an image: the failures of `Build`, or its lines. */
  function BitmapCode(id: string, path: string, p: Image): Outcome<Compiled> {
    if p.height % 8 != 0 then Err(OddHeight)
    else if p.height > 0 && p.width % 8 != 0 then Err(Uncaught(IndexOutOfRange))
    else Ok(Compiled(path, BitmapSource(id, p.columns, p.height), [Extern(id)]))
  }

  /** Opening the image file and building the bitmap. */
  function Compile(id: string, path: string, host: Host): Outcome<Compiled> {
    if path !in host.images then Err(Uncaught(UnreadableImage))
    else BitmapCode(id, path, host.images[path])
  }

  /**
   * The resource loop: each entry of `items` is checked and built in turn
   * and stored under its id (a later entry with the same id replaces the
   * earlier one); the first failure stops the walk.
   */
  function LoadFrom(host: Host, items: seq<Json>, acc: map<string, Compiled>): Outcome<map<string, Compiled>>
    decreases |items|
  {
    if items == [] then Ok(acc)
    else match Declare(host, items[0])
      case Err(e) => Err(e)
      case Ok(d) =>
        match Compile(d.0, d.1, host)
        case Err(e) => Err(e)
        case Ok(c) => LoadFrom(host, items[1..], acc[d.0 := c])
  }

  // ---------------------------------------------------------------------
  // The output pairs: the `out` list
  // ---------------------------------------------------------------------

  /** `lines.extend(extra); lines.append("")` when `extra` is truthy. */
  function AddHeader(lines: seq<Json>, extra: Json): Outcome<seq<Json>> {
    if !Truthy(extra) then Ok(lines)
    else match Iter(extra)
      case None => Err(Uncaught(TypeMismatch))
      case Some(items) => Ok(lines + items + [JStr("")])
  }

  /**
   * The resource loop of one pair: each id must be a declared resource
   * (a list or dictionary cannot even be looked up); its source lines go
   * to `src` and its header lines to `inc`.
   */
  function AddIds(resources: map<string, Compiled>, ids: seq<Json>, src: seq<Json>, inc: seq<Json>): Outcome<(seq<Json>, seq<Json>)>
    decreases |ids|
  {
    if ids == [] then Ok((src, inc))
    else
      var id := ids[0];
      if id.JArr? || id.JObj? then Err(Uncaught(TypeMismatch))
      else if !id.JStr? || id.s !in resources then Err(UndeclaredId(id))
      else AddIds(resources, ids[1..], src + Lift(resources[id.s].src), inc + Lift(resources[id.s].inc))
  }

  /**
   * The lines of one output pair: its `src` and `inc` values and the lines
   * of the source and of the header, or the failure that stops it before
   * anything is written.
   */
  function PairCode(host: Host, resources: map<string, Compiled>, files: Json): Outcome<(Json, Json, seq<Json>, seq<Json>)> {
    if !files.JObj? then Err(Uncaught(TypeMismatch))
    else
      var source := Get(files.fields, "src", JArr([]));
      var header := Get(files.fields, "inc", JArr([]));
      if !(Truthy(source) && Truthy(header)) then Err(MissingOutput)
      else if !header.JStr? then Err(Uncaught(TypeMismatch))
      else match AddHeader(Lift(SrcCode(true, host.argv0)), Get(files.fields, "src_header", JArr([])))
        case Err(e) => Err(e)
        case Ok(src) =>
          match AddHeader(Lift(IncCode(header.s, true, host.argv0)), Get(files.fields, "inc_header", JArr([])))
          case Err(e) => Err(e)
          case Ok(inc) =>
            match Iter(Get(files.fields, "ids", JArr([])))
            case None => Err(Uncaught(TypeMismatch))
            case Some(ids) =>
              match AddIds(resources, ids, src, inc)
              case Err(e) => Err(e)
              case Ok(code) =>
                Ok((source, header, code.0 + Lift(SrcCode(false, host.argv0)), code.1 + Lift(IncCode(header.s, false, host.argv0))))
  }

  /**
   * `open(path, "wt")` then `writelines("\n".join(lines))`: a path that
   * cannot be created fails before writing; a line that is not a string
   * fails the join after the file was created empty.
   */
  function WriteText(host: Host, path: Json, lines: seq<Json>): Effects<()> {
    if !path.JStr? then Effects([], Err(Uncaught(TypeMismatch)))
    else if path.s !in host.creatable then Effects([], Err(CannotCreate(path.s)))
    else match JoinLines(lines)
      case None => Effects([Write(path.s, "")], Err(Uncaught(TypeMismatch)))
      case Some(text) => Effects([Write(path.s, text)], Ok(()))
  }

  /**
   * The output loop: each pair is assembled and its source, then its
   * header, written; `done` are the files written before. The first
   * failure stops the walk, and the files already written stay written.
   */
  function AssembleFrom(host: Host, resources: map<string, Compiled>, outs: seq<Json>, done: seq<Write>): Effects<()>
    decreases |outs|
  {
    if outs == [] then Effects(done, Ok(()))
    else match PairCode(host, resources, outs[0])
      case Err(e) => Effects(done, Err(e))
      case Ok(p) =>
        var a := WriteText(host, p.0, p.2);
        if a.outcome.Err? then Effects(done + a.writes, a.outcome)
        else
          var b := WriteText(host, p.1, p.3);
          if b.outcome.Err? then Effects(done + a.writes + b.writes, b.outcome)
          else AssembleFrom(host, resources, outs[1..], done + a.writes + b.writes)
  }

  /**
   * `ResourceParser.__init__` as a whole: the files it writes and, when it
   * returns, the resources it built.
   */
  function Parse(host: Host): Effects<map<string, Compiled>> {
    if host.manifestPath !in host.files then Effects([], Err(NoSuchFile(host.manifestPath)))
    else if host.manifest.None? then Effects([], Err(BadJson))
    else
      var m := host.manifest.value;
      if !m.JObj? then Effects([], Err(Uncaught(TypeMismatch)))
      else match Iter(Get(m.fields, "in", JArr([])))
        case None => Effects([], Err(Uncaught(TypeMismatch)))
        case Some(items) =>
          match LoadFrom(host, items, map[])
          case Err(e) => Effects([], Err(e))
          case Ok(resources) =>
            match Iter(Get(m.fields, "out", JArr([])))
            case None => Effects([], Err(Uncaught(TypeMismatch)))
            case Some(outs) =>
              var a := AssembleFrom(host, resources, outs, []);
              Effects(a.writes, if a.outcome.Err? then Err(a.outcome.error) else Ok(resources))
  }

  // ---------------------------------------------------------------------
  // The dependency file: gen_deps
  // ---------------------------------------------------------------------

  /** An output pair that has been assembled: string paths and declared ids only. */
  predicate ValidOut(resources: map<string, Compiled>, files: Json) {
    files.JObj? &&
    Get(files.fields, "src", JArr([])).JStr? && Get(files.fields, "inc", JArr([])).JStr? &&
    var ids := Iter(Get(files.fields, "ids", JArr([])));
    ids.Some? && forall j :: 0 <= j < |ids.value| ==> ids.value[j].JStr? && ids.value[j].s in resources
  }

  /** The `out` list of a manifest. */
  function OutList(m: Json): seq<Json>
    requires m.JObj? && Iter(Get(m.fields, "out", JArr([]))).Some?
  {
    Iter(Get(m.fields, "out", JArr([]))).value
  }

  /** What `gen_deps` relies on: a dictionary manifest whose every output pair was assembled. */
  predicate DepsReady(m: Json, resources: map<string, Compiled>) {
    m.JObj? && Iter(Get(m.fields, "out", JArr([]))).Some? &&
    forall k :: 0 <= k < |OutList(m)| ==> ValidOut(resources, OutList(m)[k])
  }

  /** One continuation line per id: the resource's image file. */
  function DepFiles(resources: map<string, Compiled>, ids: seq<Json>): (r: seq<string>)
    requires forall j :: 0 <= j < |ids| ==> ids[j].JStr? && ids[j].s in resources
    ensures |r| == |ids|
    ensures forall j :: 0 <= j < |ids| ==> r[j] == "   " + resources[ids[j].s].sourceFile + " \\"
  {
    if ids == [] then []
    else DepFiles(resources, ids[..|ids| - 1]) + ["   " + resources[ids[|ids| - 1].s].sourceFile + " \\"]
  }

  /** The entry of one pair: the rule line, its image files, and the `SRCS.rc` line. */
  function DepEntry(resources: map<string, Compiled>, files: Json): seq<string>
    requires ValidOut(resources, files)
  {
    var src, inc := Get(files.fields, "src", JArr([])).s, Get(files.fields, "inc", JArr([])).s;
    [src + " " + inc + ": \\"] +
    DepFiles(resources, Iter(Get(files.fields, "ids", JArr([]))).value) +
    ["", "SRCS.rc += " + src, ""]
  }

  /** The lines of the dependency file for the pairs `outs`, one entry after another. */
  function DepLines(resources: map<string, Compiled>, outs: seq<Json>): seq<string>
    requires forall k :: 0 <= k < |outs| ==> ValidOut(resources, outs[k])
  {
    if outs == [] then []
    else DepLines(resources, outs[..|outs| - 1]) + DepEntry(resources, outs[|outs| - 1])
  }

  /** One more pair: its entry follows those of the pairs before it. */
  lemma DepLinesSnoc(resources: map<string, Compiled>, outs: seq<Json>, k: nat)
    requires k < |outs| && forall i :: 0 <= i < |outs| ==> ValidOut(resources, outs[i])
    ensures DepLines(resources, outs[..k + 1]) == DepLines(resources, outs[..k]) + DepEntry(resources, outs[k])
  {
    assert outs[..k + 1][..k] == outs[..k];
  }

  /**
   * The `__main__` block: parse the manifest given on the command line
   * and, when a dependency file is asked for, write it.
   */
  function Run(host: Host, deps: Option<string>): Effects<()> {
    var p := Parse(host);
    if p.outcome.Err? then Effects(p.writes, Err(p.outcome.error))
    else if deps.None? then Effects(p.writes, Ok(()))
    else if deps.value !in host.creatable then Effects(p.writes, Err(CannotCreate(deps.value)))
    else
      ParseReady(host);
      var m := host.manifest.value;
      Effects(p.writes + [Write(deps.value, Join("\n", DepLines(p.outcome.value, OutList(m))))], Ok(()))
  }

  /** The process exit status: 0 on success, 1 for every failure, reported or not. */
  function ExitStatus<T>(o: Outcome<T>): (code: nat)
    ensures code == 0 <==> o.Ok?
  {
    if o.Ok? then 0 else 1
  }

  // ---------------------------------------------------------------------
  // Properties of the manifest walk
  // ---------------------------------------------------------------------

  /**
   * The order of the declaration checks: a non-dictionary, then a missing
   * or unknown type, then a missing id are reported before anything else.
   */
  lemma DeclareChecks(host: Host, res: Json)
    ensures Declare(host, res) == Err(NotADictionary) <==> !res.JObj?
    ensures res.JObj? ==> (Declare(host, res) == Err(MissingType) <==> !Truthy(Get(res.fields, "type", JNull)))
    ensures res.JObj? && Truthy(Get(res.fields, "type", JNull)) ==>
      (Declare(host, res).Err? && Declare(host, res).error.InvalidType? <==> Get(res.fields, "type", JNull) != JStr("bitmap"))
    ensures res.JObj? && Get(res.fields, "type", JNull) == JStr("bitmap") ==>
      (Declare(host, res) == Err(MissingId) <==> !Truthy(Get(res.fields, "id", JNull)))
  {
  }

  /**
   * The id pattern only anchors at the start: a bitmap entry with a string
   * id is refused for its id exactly when the id's first character is not
   * a word character.
   */
  lemma IdCheck(host: Host, res: Json)
    requires res.JObj? && Get(res.fields, "type", JNull) == JStr("bitmap")
    requires Get(res.fields, "id", JNull).JStr? && Get(res.fields, "id", JNull).s != ""
    ensures var id := Get(res.fields, "id", JNull).s;
      Declare(host, res) == Err(InvalidId(id)) <==> !PyWord(host.unicodeWord, id[0])
  {
    IdMatchesIff(host.unicodeWord, Get(res.fields, "id", JNull).s);
  }

  /** A declared bitmap names a file that exists; its source path is missing or falsy only with `MissingSource`. */
  lemma DeclaredExists(host: Host, res: Json)
    requires Declare(host, res).Ok?
    ensures Declare(host, res).value.1 in host.files
    ensures IdMatches(host.unicodeWord, Declare(host, res).value.0)
  {
  }

  /** An image whose height is not a multiple of eight is refused, whatever its width. */
  lemma OddHeightRefused(id: string, path: string, host: Host)
    requires path in host.images && host.images[path].height % 8 != 0
    ensures Compile(id, path, host) == Err(OddHeight)
  {
  }

  /**
   * When the resource loop succeeds, every entry passed its checks and was
   * built, every id is in the result, and every resource carries exactly
   * one header line, the `extern` declaration of its own descriptor.
   */
  lemma {:induction false} LoadedAll(host: Host, items: seq<Json>, acc: map<string, Compiled>)
    requires forall id :: id in acc ==> acc[id].inc == [Extern(id)]
    requires LoadFrom(host, items, acc).Ok?
    ensures var m := LoadFrom(host, items, acc).value;
      acc.Keys <= m.Keys &&
      (forall id :: id in m ==> m[id].inc == [Extern(id)]) &&
      forall i :: 0 <= i < |items| ==>
        Declare(host, items[i]).Ok? && Declare(host, items[i]).value.0 in m &&
        Compile(Declare(host, items[i]).value.0, Declare(host, items[i]).value.1, host).Ok?
    decreases |items|
  {
    if items != [] {
      var d := Declare(host, items[0]).value;
      var c := Compile(d.0, d.1, host).value;
      LoadedAll(host, items[1..], acc[d.0 := c]);
      forall i | 1 <= i < |items|
        ensures items[i] == items[1..][i - 1]
      {
      }
    }
  }

  /** The concatenated header lines of the resources named by `ids`. */
  function IncOf(resources: map<string, Compiled>, ids: seq<Json>): seq<string>
    requires forall j :: 0 <= j < |ids| ==> ids[j].JStr? && ids[j].s in resources
  {
    if ids == [] then [] else resources[ids[0].s].inc + IncOf(resources, ids[1..])
  }

  /** The concatenated source lines of the resources named by `ids`. */
  function SrcOf(resources: map<string, Compiled>, ids: seq<Json>): seq<string>
    requires forall j :: 0 <= j < |ids| ==> ids[j].JStr? && ids[j].s in resources
  {
    if ids == [] then [] else resources[ids[0].s].src + SrcOf(resources, ids[1..])
  }

  /**
   * The resource loop of a pair succeeds exactly when every id is a
   * declared resource; it then appends the resources' lines in the order
   * of `ids`. Otherwise the first bad id stops it.
   */
  lemma {:induction false} AddIdsResult(resources: map<string, Compiled>, ids: seq<Json>, src: seq<Json>, inc: seq<Json>)
    ensures AddIds(resources, ids, src, inc).Ok? <==> forall j :: 0 <= j < |ids| ==> ids[j].JStr? && ids[j].s in resources
    ensures AddIds(resources, ids, src, inc).Ok? ==>
      AddIds(resources, ids, src, inc).value == (src + Lift(SrcOf(resources, ids)), inc + Lift(IncOf(resources, ids)))
    decreases |ids|
  {
    if ids == [] {
      assert src + Lift([]) == src && inc + Lift([]) == inc;
    } else {
      var id := ids[0];
      if id.JStr? && id.s in resources {
        var c := resources[id.s];
        AddIdsResult(resources, ids[1..], src + Lift(c.src), inc + Lift(c.inc));
        forall j | 1 <= j < |ids|
          ensures ids[j] == ids[1..][j - 1]
        {
        }
        if AddIds(resources, ids, src, inc).Ok? {
          var s1, i1 := SrcOf(resources, ids[1..]), IncOf(resources, ids[1..]);
          assert SrcOf(resources, ids) == c.src + s1;
          assert IncOf(resources, ids) == c.inc + i1;
          LiftAppend(c.src, s1);
          LiftAppend(c.inc, i1);
          AppendAssoc(src, Lift(c.src), Lift(s1));
          AppendAssoc(inc, Lift(c.inc), Lift(i1));
        }
      }
    }
  }

  /** An id that is a string but no declared resource stops its pair with `UndeclaredId`, after the declared ones before it. */
  lemma {:induction false} UndeclaredStops(resources: map<string, Compiled>, ids: seq<Json>, src: seq<Json>, inc: seq<Json>, j: nat)
    requires j < |ids| && ids[j].JStr? && ids[j].s !in resources
    requires forall i :: 0 <= i < j ==> ids[i].JStr? && ids[i].s in resources
    ensures AddIds(resources, ids, src, inc) == Err(UndeclaredId(ids[j]))
    decreases j
  {
    if j > 0 {
      var c := resources[ids[0].s];
      UndeclaredStops(resources, ids[1..], src + Lift(c.src), inc + Lift(c.inc), j - 1);
    }
  }

  /**
   * The header of an assembled pair: the include guard's opening and the
   * notice, the optional `inc_header` lines and a blank line, exactly the
   * header lines of the pair's own ids in their order, and the guard's end.
   */
  lemma HeaderShape(host: Host, resources: map<string, Compiled>, files: Json)
    requires PairCode(host, resources, files).Ok?
    ensures files.JObj?
    ensures var header := Get(files.fields, "inc", JArr([]));
      var ids := Iter(Get(files.fields, "ids", JArr([])));
      var extra := Get(files.fields, "inc_header", JArr([]));
      header.JStr? && ids.Some? && (forall j :: 0 <= j < |ids.value| ==> ids.value[j].JStr? && ids.value[j].s in resources) &&
      (!Truthy(extra) ==>
        PairCode(host, resources, files).value.3 ==
          Lift(IncCode(header.s, true, host.argv0)) + Lift(IncOf(resources, ids.value)) + Lift(IncCode(header.s, false, host.argv0))) &&
      (Truthy(extra) ==>
        PairCode(host, resources, files).value.3 ==
          Lift(IncCode(header.s, true, host.argv0)) + Iter(extra).value + [JStr("")] +
          Lift(IncOf(resources, ids.value)) + Lift(IncCode(header.s, false, host.argv0)))
  {
    var header := Get(files.fields, "inc", JArr([]));
    var src := AddHeader(Lift(SrcCode(true, host.argv0)), Get(files.fields, "src_header", JArr([]))).value;
    var inc := AddHeader(Lift(IncCode(header.s, true, host.argv0)), Get(files.fields, "inc_header", JArr([]))).value;
    var ids := Iter(Get(files.fields, "ids", JArr([]))).value;
    AddIdsResult(resources, ids, src, inc);
  }

  /** A pair that assembles, with a source path that is a string, names declared resources only. */
  lemma PairValid(host: Host, resources: map<string, Compiled>, files: Json)
    requires PairCode(host, resources, files).Ok? && PairCode(host, resources, files).value.0.JStr?
    ensures ValidOut(resources, files)
  {
    var header := Get(files.fields, "inc", JArr([]));
    var src := AddHeader(Lift(SrcCode(true, host.argv0)), Get(files.fields, "src_header", JArr([]))).value;
    var inc := AddHeader(Lift(IncCode(header.s, true, host.argv0)), Get(files.fields, "inc_header", JArr([]))).value;
    var ids := Iter(Get(files.fields, "ids", JArr([]))).value;
    AddIdsResult(resources, ids, src, inc);
  }

  /** One pair of a successful output loop: it assembles, its source path is a string, and it writes two files. */
  lemma AssembleStep(host: Host, resources: map<string, Compiled>, outs: seq<Json>, done: seq<Write>)
    requires outs != [] && AssembleFrom(host, resources, outs, done).outcome.Ok?
    ensures PairCode(host, resources, outs[0]).Ok?
    ensures var p := PairCode(host, resources, outs[0]).value;
      var a, b := WriteText(host, p.0, p.2).writes, WriteText(host, p.1, p.3).writes;
      p.0.JStr? && |a| == 1 && |b| == 1 &&
      AssembleFrom(host, resources, outs, done) == AssembleFrom(host, resources, outs[1..], done + a + b)
  {
  }

  /**
   * When the output loop succeeds, every pair was assembled (string paths,
   * declared ids) and wrote exactly two files, its source then its header.
   */
  lemma {:induction false} AssembledAll(host: Host, resources: map<string, Compiled>, outs: seq<Json>, done: seq<Write>)
    requires AssembleFrom(host, resources, outs, done).outcome.Ok?
    ensures forall k :: 0 <= k < |outs| ==> ValidOut(resources, outs[k])
    ensures |AssembleFrom(host, resources, outs, done).writes| == |done| + 2 * |outs|
    decreases |outs|
  {
    if outs != [] {
      AssembleStep(host, resources, outs, done);
      var p := PairCode(host, resources, outs[0]).value;
      var w := done + WriteText(host, p.0, p.2).writes + WriteText(host, p.1, p.3).writes;
      AssembledAll(host, resources, outs[1..], w);
      PairValid(host, resources, outs[0]);
      forall k | 1 <= k < |outs|
        ensures outs[k] == outs[1..][k - 1]
      {
      }
    }
  }

  /** A pair whose assembly fails writes nothing: the files written are those of the pairs before it. */
  lemma FailedPairWritesNothing(host: Host, resources: map<string, Compiled>, outs: seq<Json>, done: seq<Write>)
    requires outs != [] && PairCode(host, resources, outs[0]).Err?
    ensures AssembleFrom(host, resources, outs, done) == Effects(done, Err(PairCode(host, resources, outs[0]).error))
  {
  }

  /** A successful parse leaves what `gen_deps` relies on. */
  lemma ParseReady(host: Host)
    requires Parse(host).outcome.Ok?
    ensures host.manifest.Some? && DepsReady(host.manifest.value, Parse(host).outcome.value)
  {
    var m := host.manifest.value;
    var items := Iter(Get(m.fields, "in", JArr([]))).value;
    var resources := LoadFrom(host, items, map[]).value;
    AssembledAll(host, resources, OutList(m), []);
  }

  /** A failing resource (an odd height, a missing file, a bad entry) stops the run before any file is written. */
  lemma {:induction false} LoadFailureWritesNothing(host: Host)
    requires host.manifestPath in host.files && host.manifest.Some? && host.manifest.value.JObj?
    requires var items := Iter(Get(host.manifest.value.fields, "in", JArr([])));
      items.Some? && LoadFrom(host, items.value, map[]).Err?
    ensures Parse(host).writes == [] && Parse(host).outcome.Err?
    ensures ExitStatus(Run(host, None).outcome) == 1
  {
  }

  /** Each entry of the dependency file: the rule naming both files, one line per image file, a blank line and the `SRCS.rc` line. */
  lemma DepEntryShape(resources: map<string, Compiled>, files: Json)
    requires ValidOut(resources, files)
    ensures var e, src := DepEntry(resources, files), Get(files.fields, "src", JArr([])).s;
      var ids := Iter(Get(files.fields, "ids", JArr([]))).value;
      |e| == |ids| + 4 &&
      e[0] == src + " " + Get(files.fields, "inc", JArr([])).s + ": \\" &&
      (forall j :: 0 <= j < |ids| ==> e[j + 1] == "   " + resources[ids[j].s].sourceFile + " \\") &&
      e[|ids| + 1 ..] == ["", "SRCS.rc += " + src, ""]
  {
  }

  // ---------------------------------------------------------------------
  // ResourceParser
  // ---------------------------------------------------------------------

  /** `Image.open(...).load()`: the decoded pixels as a mutable array, column by column. */
  method Decode(p: Image) returns (im: array2<nat>)
    ensures fresh(im) && im.Length0 == p.width && im.Length1 == p.height && Grid(im) == p.columns
  {
    im := new nat[p.width, p.height]((x, y) requires 0 <= x < p.width && 0 <= y < p.height => p.columns[x][y]);
    assert forall x | 0 <= x < p.width :: Grid(im)[x] == p.columns[x];
  }

  /** `Bitmap(id, parent, res)` followed by `build(res)`, once the entry passed its checks. */
  method BuildBitmap(host: Host, id: string, path: string) returns (c: Outcome<Compiled>)
    ensures c == Compile(id, path, host)
  {
    if path !in host.images {
      return Err(Uncaught(UnreadableImage));
    }
    var p := host.images[path];
    var b := new Bitmap(id, path);
    var im := Decode(p);
    var r := b.Build(im);
    if r.Err? {
      return Err(r.error);
    }
    assert b.src == BitmapSource(id, p.columns, p.height);
    assert b.inc == [Extern(id)];
    return Ok(Compiled(b.sourceFile, b.src, b.inc));
  }

  class ResourceParser {
    /** The built resources by id, the decoded manifest, and the files written so far. */
    var resources: map<string, Compiled>
    var resourceDict: Json
    var written: seq<Write>
    /** The exception `__init__` ended with, if any. */
    var failure: Option<Error>

    /** `ResourceParser.__init__`: reads the manifest, builds every resource and writes every pair. */
    constructor (host: Host)
      ensures written == Parse(host).writes
      ensures failure.None? <==> Parse(host).outcome.Ok?
      ensures failure.Some? ==> Parse(host).outcome == Err(failure.value)
      ensures failure.None? ==> resources == Parse(host).outcome.value && host.manifest == Some(resourceDict)
    {
      resources := map[];
      resourceDict := JNull;
      written := [];
      failure := None;
      new;
      var o := ParseManifest(host);
      if o.Err? {
        failure := Some(o.error);
      }
    }

    method ParseManifest(host: Host) returns (outcome: Outcome<()>)
      requires resources == map[] && written == []
      modifies this`resources, this`resourceDict, this`written
      ensures written == Parse(host).writes
      ensures outcome.Ok? <==> Parse(host).outcome.Ok?
      ensures outcome.Err? ==> Parse(host).outcome == Err(outcome.error)
      ensures outcome.Ok? ==> resources == Parse(host).outcome.value && host.manifest == Some(resourceDict)
    {
      if host.manifestPath !in host.files {
        return Err(NoSuchFile(host.manifestPath));
      }
      if host.manifest.None? {
        return Err(BadJson);
      }
      resourceDict := host.manifest.value;
      if !resourceDict.JObj? {
        return Err(Uncaught(TypeMismatch));
      }
      var items := Iter(Get(resourceDict.fields, "in", JArr([])));
      if items.None? {
        return Err(Uncaught(TypeMismatch));
      }
      outcome := LoadResources(host, items.value);
      if outcome.Err? {
        return;
      }
      var outs := Iter(Get(resourceDict.fields, "out", JArr([])));
      if outs.None? {
        return Err(Uncaught(TypeMismatch));
      }
      outcome := WriteOutputs(host, outs.value);
    }

    /** The loop over `in`: check, build and store each resource. */
    method LoadResources(host: Host, items: seq<Json>) returns (outcome: Outcome<()>)
      modifies this`resources
      ensures outcome.Ok? <==> LoadFrom(host, items, old(resources)).Ok?
      ensures outcome.Ok? ==> LoadFrom(host, items, old(resources)) == Ok(resources)
      ensures outcome.Err? ==> LoadFrom(host, items, old(resources)) == Err(outcome.error)
    {
      var i := 0;
      while i < |items|
        invariant 0 <= i <= |items|
        invariant LoadFrom(host, items, old(resources)) == LoadFrom(host, items[i..], resources)
      {
        assert items[i..][0] == items[i] && items[i..][1..] == items[i + 1..];
        var d := Declare(host, items[i]);
        if d.Err? {
          return Err(d.error);
        }
        var id, path := d.value.0, d.value.1;
        var c := BuildBitmap(host, id, path);
        if c.Err? {
          return Err(c.error);
        }
        resources := resources[id := c.value];
        i := i + 1;
      }
      return Ok(());
    }

    /** The loop over `out`: assemble each pair and write its source and header. */
    method WriteOutputs(host: Host, outs: seq<Json>) returns (outcome: Outcome<()>)
      modifies this`written
      ensures written == AssembleFrom(host, resources, outs, old(written)).writes
      ensures outcome == AssembleFrom(host, resources, outs, old(written)).outcome
    {
      var k := 0;
      while k < |outs|
        invariant 0 <= k <= |outs|
        invariant AssembleFrom(host, resources, outs, old(written)) == AssembleFrom(host, resources, outs[k..], written)
      {
        assert outs[k..][0] == outs[k] && outs[k..][1..] == outs[k + 1..];
        var p := PairLines(host, outs[k]);
        if p.Err? {
          return Err(p.error);
        }
        outcome := WriteFile(host, p.value.0, p.value.2);
        if outcome.Err? {
          return;
        }
        outcome := WriteFile(host, p.value.1, p.value.3);
        if outcome.Err? {
          return;
        }
        k := k + 1;
      }
      return Ok(());
    }

    /** The body of the `out` loop up to the writes: the boilerplate, the optional headers and each id's lines. */
    method PairLines(host: Host, files: Json) returns (r: Outcome<(Json, Json, seq<Json>, seq<Json>)>)
      ensures r == PairCode(host, resources, files)
    {
      if !files.JObj? {
        return Err(Uncaught(TypeMismatch));
      }
      var source := Get(files.fields, "src", JArr([]));
      var header := Get(files.fields, "inc", JArr([]));
      if !(Truthy(source) && Truthy(header)) {
        return Err(MissingOutput);
      }
      if !header.JStr? {
        return Err(Uncaught(TypeMismatch));
      }
      var src := AddHeader(Lift(SrcCode(true, host.argv0)), Get(files.fields, "src_header", JArr([])));
      if src.Err? {
        return Err(src.error);
      }
      var inc := AddHeader(Lift(IncCode(header.s, true, host.argv0)), Get(files.fields, "inc_header", JArr([])));
      if inc.Err? {
        return Err(inc.error);
      }
      var ids := Iter(Get(files.fields, "ids", JArr([])));
      if ids.None? {
        return Err(Uncaught(TypeMismatch));
      }
      var srcLines, incLines := src.value, inc.value;
      var i := 0;
      while i < |ids.value|
        invariant 0 <= i <= |ids.value|
        invariant AddIds(resources, ids.value, src.value, inc.value) == AddIds(resources, ids.value[i..], srcLines, incLines)
      {
        var id := ids.value[i];
        assert ids.value[i..][0] == id && ids.value[i..][1..] == ids.value[i + 1..];
        if id.JArr? || id.JObj? {
          return Err(Uncaught(TypeMismatch));
        }
        if !id.JStr? || id.s !in resources {
          return Err(UndeclaredId(id));
        }
        srcLines := srcLines + Lift(resources[id.s].src);
        incLines := incLines + Lift(resources[id.s].inc);
        i := i + 1;
      }
      srcLines := srcLines + Lift(SrcCode(false, host.argv0));
      incLines := incLines + Lift(IncCode(header.s, false, host.argv0));
      return Ok((source, header, srcLines, incLines));
    }

    /** `open(path, "wt")` and the write of the joined lines. */
    method WriteFile(host: Host, path: Json, lines: seq<Json>) returns (outcome: Outcome<()>)
      modifies this`written
      ensures written == old(written) + WriteText(host, path, lines).writes
      ensures outcome == WriteText(host, path, lines).outcome
    {
      if !path.JStr? {
        return Err(Uncaught(TypeMismatch));
      }
      if path.s !in host.creatable {
        return Err(CannotCreate(path.s));
      }
      var text := JoinLines(lines);
      if text.None? {
        written := written + [Write(path.s, "")];
        return Err(Uncaught(TypeMismatch));
      }
      written := written + [Write(path.s, text.value)];
      return Ok(());
    }

    /** The inner loop of `gen_deps`: one continuation line per id of a pair. */
    method FileLines(ids: seq<Json>) returns (deps: seq<string>)
      requires forall j :: 0 <= j < |ids| ==> ids[j].JStr? && ids[j].s in resources
      ensures deps == DepFiles(resources, ids)
    {
      deps := [];
      var j := 0;
      while j < |ids|
        invariant 0 <= j <= |ids|
        invariant deps == DepFiles(resources, ids[..j])
      {
        assert ids[..j + 1][..j] == ids[..j];
        deps := deps + ["   " + resources[ids[j].s].sourceFile + " \\"];
        j := j + 1;
      }
      assert ids[..j] == ids;
    }

    /** `gen_deps`: the text of the dependency file, built pair by pair. */
    method GenDeps() returns (text: string)
      requires DepsReady(resourceDict, resources)
      ensures text == Join("\n", DepLines(resources, OutList(resourceDict)))
    {
      var outs := OutList(resourceDict);
      var out: seq<string> := [];
      var k := 0;
      while k < |outs|
        invariant 0 <= k <= |outs|
        invariant out == DepLines(resources, outs[..k])
      {
        var files := outs[k];
        assert ValidOut(resources, files);
        var src, inc := Get(files.fields, "src", JArr([])).s, Get(files.fields, "inc", JArr([])).s;
        var deps := FileLines(Iter(Get(files.fields, "ids", JArr([]))).value);
        var entry := [src + " " + inc + ": \\"] + deps + ["", "SRCS.rc += " + src, ""];
        assert entry == DepEntry(resources, files);
        DepLinesSnoc(resources, outs, k);
        out := out + entry;
        k := k + 1;
      }
      assert outs[..k] == outs;
      text := Join("\n", out);
    }
  }

  /** The `__main__` block: parse, then write the dependency file when `-E` names one. */
  method RunCompiler(host: Host, deps: Option<string>) returns (e: Effects<()>)
    ensures e == Run(host, deps)
  {
    var rc := new ResourceParser(host);
    if rc.failure.Some? {
      return Effects(rc.written, Err(rc.failure.value));
    }
    if deps.None? {
      return Effects(rc.written, Ok(()));
    }
    if deps.value !in host.creatable {
      return Effects(rc.written, Err(CannotCreate(deps.value)));
    }
    ParseReady(host);
    var text := rc.GenDeps();
    return Effects(rc.written + [Write(deps.value, text)], Ok(()));
  }
}

/** The sandwich engine: TIFF conversion with a fallback, pdfsandwich, then pdftk and gs, or
    pdftotext, over a file system that the tools share, with deferred cleanup. */
module SandwichEngine {
  import opened OcrTypes
  import TesseractArgs

  // ----- file names -----

  function Pdf(f: string): string { f + ".pdf" }
  function Layer(f: string): string { f + "_ocr.pdf" }
  function Combined(f: string): string { f + "_comb.pdf" }
  function Compressed(f: string): string { f + "_compr.pdf" }

  /** The last component's suffix from its last dot, as the path library computes it. */
  function Ext(path: string): string {
    if path == "" || path[|path| - 1] == '/' then ""
    else
      var last := path[|path| - 1];
      if last == '.' then "." else
      var e := Ext(path[..|path| - 1]);
      if e == "" then "" else e + [last]
  }

  function TrimSuffix(s: string, suffix: string): string {
    if |suffix| <= |s| && s[|s| - |suffix|..] == suffix then s[..|s| - |suffix|] else s
  }

  function TextFile(f: string): string {
    TrimSuffix(Layer(f), Ext(Layer(f))) + ".txt"
  }

  lemma ExtSnoc(p: string, c: char)
    requires c != '.' && c != '/' && Ext(p) != ""
    ensures Ext(p + [c]) == Ext(p) + [c]
  {
    assert (p + [c])[..|p|] == p;
  }

  lemma ExtOfLayer(f: string)
    ensures Ext(Layer(f)) == ".pdf" && TextFile(f) == f + "_ocr.txt"
  {
    var p := f + "_ocr";
    assert (p + ".")[|p|] == '.';
    ExtSnoc(p + ".", 'p');
    ExtSnoc(p + "." + "p", 'd');
    ExtSnoc(p + "." + "p" + "d", 'f');
    assert p + "." + "p" + "d" + "f" == Layer(f);
    assert Layer(f)[..|Layer(f)| - 4] == p;
    assert Layer(f)[|Layer(f)| - 4..] == ".pdf";
    assert p + ".txt" == f + "_ocr.txt";
  }

  /** Whatever the input is called, no derived file name is the input's, the converted file's
      or another derived file's: no stage overwrites what a later one reads. */
  lemma NamesNeverCollide(input: string, f: string)
    requires f == input || f == Pdf(input)
    ensures input != Pdf(input)
    ensures {Layer(f), Combined(f), Compressed(f), TextFile(f)} !! {input, Pdf(input)}
    ensures |{Layer(f), Combined(f), Compressed(f), TextFile(f)}| == 4
  {
    ExtOfLayer(f);
    assert Layer(f)[|f| + 5] != TextFile(f)[|f| + 5];
    assert |f + "_ocr.txt"| == |f| + 8;
    if f == input {
      assert Layer(f) != Pdf(input) && TextFile(f) != Pdf(input);
    }
    assert {Layer(f), Combined(f), Compressed(f), TextFile(f)} ==
           {Layer(f), Combined(f), Compressed(f)} + {TextFile(f)};
    assert {Layer(f), Combined(f), Compressed(f)} == {Layer(f), Combined(f)} + {Compressed(f)};
    assert {Layer(f), Combined(f)} == {Layer(f)} + {Combined(f)};
  }

  // ----- arguments -----

  /** `lang` and the configuration pairs in the order in which the map is ranged over. */
  datatype Args = Args(lang: string, pairs: seq<(string, string)>, ocrType: string, ocrOptimize: bool,
                       saveFiles: bool, t2pConverter: string)

  function PairArgs(pairs: seq<(string, string)>): seq<string> {
    if pairs == [] then [] else PairArgs(pairs[..|pairs| - 1]) + [pairs[|pairs| - 1].0 + "=" + pairs[|pairs| - 1].1]
  }

  function Flags(a: Args): seq<string> {
    (if a.lang != "" then ["-lang", a.lang] else []) + ["-tesso", "-c textonly_pdf=1"] + PairArgs(a.pairs)
  }

  /** How pdfsandwich takes its flags: a language if `-lang` stands first, then the switch for a text
      layer only, then the configuration pairs. */
  function ReadFlags(flags: seq<string>): Option<(string, seq<(string, string)>)> {
    var named := |flags| >= 2 && flags[0] == "-lang";
    var rest := if named then flags[2..] else flags;
    if |rest| >= 2 && rest[0] == "-tesso" && rest[1] == "-c textonly_pdf=1" then
      Some((if named then flags[1] else "", ReadPairs(rest[2..])))
    else None
  }

  function ReadPairs(args: seq<string>): seq<(string, string)> {
    if args == [] then [] else ReadPairs(args[..|args| - 1]) + [TesseractArgs.KeyValue(args[|args| - 1])]
  }

  predicate PlainKeys(pairs: seq<(string, string)>) {
    forall k :: 0 <= k < |pairs| ==> '=' !in pairs[k].0
  }

  lemma {:induction false} PairsReadBack(pairs: seq<(string, string)>)
    ensures |PairArgs(pairs)| == |pairs| == |ReadPairs(PairArgs(pairs))|
    ensures PlainKeys(ReadPairs(PairArgs(pairs)))
    ensures PlainKeys(pairs) ==> ReadPairs(PairArgs(pairs)) == pairs
  {
    if pairs != [] {
      var init, last := pairs[..|pairs| - 1], pairs[|pairs| - 1];
      PairsReadBack(init);
      assert PairArgs(pairs)[..|init|] == PairArgs(init);
      if PlainKeys(pairs) {
        assert '=' !in pairs[|pairs| - 1].0;
        TesseractArgs.KeyValueSplits(last.0, last.1);
        assert pairs == init + [last];
      }
    }
  }

  /** Reading the exported flags back always recovers the language, which is empty exactly if no
      `-lang` stands first, and recovers the configuration pairs in order if and only if no key
      contains '='. */
  lemma FlagsReadBackIffKeysPlain(a: Args)
    ensures ReadFlags(Flags(a)).Some? && ReadFlags(Flags(a)).value.0 == a.lang
    ensures a.lang == "" <==> Flags(a)[0] != "-lang"
    ensures ReadFlags(Flags(a)).value.1 == a.pairs <==> PlainKeys(a.pairs)
  {
    PairsReadBack(a.pairs);
    var rest := ["-tesso", "-c textonly_pdf=1"] + PairArgs(a.pairs);
    assert rest[2..] == PairArgs(a.pairs);
    if a.lang != "" {
      assert Flags(a) == ["-lang", a.lang] + rest && Flags(a)[2..] == rest;
    } else {
      assert Flags(a) == rest;
    }
  }

  method Export(a: Args) returns (result: seq<string>)
    ensures result == Flags(a)
  {
    result := [];
    if a.lang != "" {
      result := result + ["-lang", a.lang];
    }
    result := result + ["-tesso", "-c textonly_pdf=1"];
    ghost var head := result;
    for i := 0 to |a.pairs|
      invariant result == head + PairArgs(a.pairs[..i])
    {
      assert a.pairs[..i + 1][..i] == a.pairs[..i];
      result := result + [a.pairs[i].0 + "=" + a.pairs[i].1];
    }
    assert a.pairs[..|a.pairs|] == a.pairs;
  }

  method BuildCmdLineArgs(input: string, a: Args) returns (cmdArgs: seq<string>, ocrLayerFile: string)
    ensures ocrLayerFile == Layer(input) == input + "_ocr.pdf"
    ensures cmdArgs == Flags(a) + [input, "-o", input + "_ocr.pdf"]
  {
    var cflags := Export(a);
    ocrLayerFile := input + "_ocr.pdf";
    cmdArgs := cflags + [input, "-o", ocrLayerFile];
  }

  function Upper(s: string): string {
    if s == "" then ""
    else
      var c := s[|s| - 1];
      Upper(s[..|s| - 1]) + [if 'a' <= c <= 'z' then c - ('a' - 'A') else c]
  }

  // ----- the tools and the file system -----

  /** What the external programs make of their inputs when they succeed. */
  datatype Tools = Tools(
    convert: Bytes -> Bytes,
    tiff2pdf: Bytes -> Bytes,
    pdfsandwich: (seq<string>, Bytes) -> Bytes,
    pdftk: (Bytes, Bytes) -> Bytes,
    gs: Bytes -> Bytes,
    pdftotext: Bytes -> Bytes,
    encode: Bytes -> string)

  /** One execution. `Done` makes its output of its inputs, and fails when an input is missing;
      `Hollow` exits with 0 all the same and `Broken` does not, each leaving something else in
      the output file or nothing new. */
  datatype Exec = Done | Hollow(left: Option<Bytes>) | Broken(left: Option<Bytes>)

  /** The executions and whether the result file can be read. */
  datatype Execs = Execs(convert: Exec, tiff2pdf: Exec, pdfsandwich: Exec, pdftk: Exec, gs: Exec, pdftotext: Exec,
                         readable: bool)

  /** Exit code 0, and what is in the output file afterwards. */
  datatype Stage = Stage(ok: bool, content: Option<Bytes>)

  /** An execution that would make `made` (`None` for lack of an input), with `before` in its
      output file. */
  function Executed(e: Exec, made: Option<Bytes>, before: Option<Bytes>): Stage {
    match e
    case Done => Stage(made.Some?, if made.Some? then made else before)
    case Hollow(l) => Stage(true, if l.Some? then l else before)
    case Broken(l) => Stage(false, if l.Some? then l else before)
  }

  function Lookup(files: map<string, Bytes>, name: string): Option<Bytes> {
    if name in files then Some(files[name]) else None
  }

  /** No file is removed and only those named are written. */
  ghost predicate OnlyWrites(before: map<string, Bytes>, after: map<string, Bytes>, names: set<string>) {
    before.Keys <= after.Keys && forall n :: n !in names ==> Lookup(after, n) == Lookup(before, n)
  }

  class FileSystem {
    var files: map<string, Bytes>

    constructor (files: map<string, Bytes>)
      ensures this.files == files
    {
      this.files := files;
    }

    method Execute(output: string, made: Option<Bytes>, e: Exec) returns (ok: bool)
      modifies this
      ensures Stage(ok, Lookup(files, output)) == Executed(e, made, Lookup(old(files), output))
      ensures OnlyWrites(old(files), files, {output})
    {
      match e {
        case Done =>
          ok := made.Some?;
          if made.Some? { files := files[output := made.value]; }
        case Hollow(l) =>
          ok := true;
          if l.Some? { files := files[output := l.value]; }
        case Broken(l) =>
          ok := false;
          if l.Some? { files := files[output := l.value]; }
      }
    }

    method Remove(f: string)
      modifies this
      ensures files == old(files) - {f}
    {
      files := files - {f};
    }
  }

  // ----- the pipeline as a composition -----

  function Converted(tool: Bytes -> Bytes, img: Bytes, e: Exec, before: Option<Bytes>): Stage {
    Executed(e, Some(tool(img)), before)
  }

  /** Name and contents of the PDF the later stages start from: for a TIFF, that of the configured
      converter, or else of the other one; `None` if both fail. `before` is what was in the file
      of that name. */
  function Source(t: Tools, x: Execs, a: Args, tiff: bool, input: string, img: Bytes, before: Option<Bytes>)
    : Option<(string, Option<Bytes>)>
  {
    if !tiff || a.t2pConverter !in {"convert", "tiff2pdf"} then Some((input, Some(img)))
    else
      var byConvert := Converted(t.convert, img, x.convert, before);
      var byTiff2pdf := Converted(t.tiff2pdf, img, x.tiff2pdf, before);
      var first := if a.t2pConverter == "convert" then byConvert else byTiff2pdf;
      var second := if a.t2pConverter == "convert" then Converted(t.tiff2pdf, img, x.tiff2pdf, first.content)
                    else Converted(t.convert, img, x.convert, first.content);
      if first.ok then Some((Pdf(input), first.content))
      else if second.ok then Some((Pdf(input), second.content))
      else None
  }

  /** Conversion fails exactly if both converters exit with an error, and the configured one has
      its way if it works. */
  lemma ConversionFailsIffBothFail(t: Tools, x: Execs, a: Args, input: string, img: Bytes, before: Option<Bytes>)
    requires a.t2pConverter == "convert" || a.t2pConverter == "tiff2pdf"
    ensures Source(t, x, a, false, input, img, before) == Some((input, Some(img)))
    ensures Source(t, x, a, true, input, img, before).None? <==> x.convert.Broken? && x.tiff2pdf.Broken?
    ensures x.convert.Done? && (a.t2pConverter == "convert" || x.tiff2pdf.Broken?) ==>
              Source(t, x, a, true, input, img, before) == Some((Pdf(input), Some(t.convert(img))))
    ensures x.tiff2pdf.Done? && (a.t2pConverter == "tiff2pdf" || x.convert.Broken?) ==>
              Source(t, x, a, true, input, img, before) == Some((Pdf(input), Some(t.tiff2pdf(img))))
  {
  }

  /** How the stages after conversion end: with an early return, or with the file to deliver, what
      is in it, and whether a failure was flagged. */
  datatype Ending = Stops(failed: bool) | Reads(file: string, content: Option<Bytes>, flagged: bool)

  function Over(tool: Bytes -> Bytes, b: Option<Bytes>): Option<Bytes> {
    if b.Some? then Some(tool(b.value)) else None
  }

  function Sandwiched(t: Tools, flags: seq<string>, pdf: Option<Bytes>): Option<Bytes> {
    if pdf.Some? then Some(t.pdfsandwich(flags, pdf.value)) else None
  }

  function Stamped(t: Tools, layer: Option<Bytes>, pdf: Option<Bytes>): Option<Bytes> {
    if layer.Some? && pdf.Some? then Some(t.pdftk(layer.value, pdf.value)) else None
  }

  function LayerStage(t: Tools, x: Execs, a: Args, files: map<string, Bytes>, f: string, pdf: Option<Bytes>): Stage {
    Executed(x.pdfsandwich, Sandwiched(t, Flags(a), pdf), Lookup(files, Layer(f)))
  }

  function CombinedEnding(t: Tools, x: Execs, a: Args, files: map<string, Bytes>, f: string,
                          layer: Option<Bytes>, pdf: Option<Bytes>): Ending {
    var combined := Executed(x.pdftk, Stamped(t, layer, pdf), Lookup(files, Combined(f)));
    var compressed := Executed(x.gs, Over(t.gs, combined.content), Lookup(files, Compressed(f)));
    if !combined.ok then Stops(false)
    else if !a.ocrOptimize then Reads(Combined(f), combined.content, false)
    else if !compressed.ok then Stops(false)
    else Reads(Compressed(f), compressed.content, false)
  }

  /** From a text layer and its source PDF; a failing pdftotext is only flagged. */
  function LayerEnding(t: Tools, x: Execs, a: Args, files: map<string, Bytes>, f: string,
                       layer: Option<Bytes>, pdf: Option<Bytes>): Ending {
    var kind := Upper(a.ocrType);
    if kind == "COMBINEDPDF" then CombinedEnding(t, x, a, files, f, layer, pdf)
    else if kind == "OCRLAYERONLY" then Reads(Layer(f), layer, false)
    else if kind == "TXT" then
      var text := Executed(x.pdftotext, Over(t.pdftotext, layer), Lookup(files, TextFile(f)));
      Reads(TextFile(f), text.content, !text.ok)
    else Stops(true)
  }

  function PdfEnding(t: Tools, x: Execs, a: Args, files: map<string, Bytes>, f: string, pdf: Option<Bytes>): Ending {
    var layer := LayerStage(t, x, a, files, f, pdf);
    if !layer.ok then Stops(true) else LayerEnding(t, x, a, files, f, layer.content, pdf)
  }

  function RunEnding(t: Tools, x: Execs, a: Args, tiff: bool, files: map<string, Bytes>, input: string): Ending
    requires input in files
  {
    var src := Source(t, x, a, tiff, input, files[input], Lookup(files, Pdf(input)));
    if src.None? then Stops(true) else PdfEnding(t, x, a, files, src.value.0, src.value.1)
  }

  /** The delivered text, if there is a result. */
  function Delivered(t: Tools, x: Execs, e: Ending): Option<string> {
    if e.Reads? && e.content.Some? && x.readable then Some(t.encode(e.content.value)) else None
  }

  /** No failure was flagged on the way to the result file. */
  predicate Unflagged(e: Ending) { e.Reads? && !e.flagged }

  // ----- what the composition is -----

  /** The file to deliver when every tool works: the whole pipeline as one expression. */
  function Composition(t: Tools, flags: seq<string>, a: Args, pdf: Bytes): Option<Bytes> {
    var layer, kind := t.pdfsandwich(flags, pdf), Upper(a.ocrType);
    if kind == "COMBINEDPDF" then
      Some(if a.ocrOptimize then t.gs(t.pdftk(layer, pdf)) else t.pdftk(layer, pdf))
    else if kind == "OCRLAYERONLY" then Some(layer)
    else if kind == "TXT" then Some(t.pdftotext(layer))
    else None
  }

  /** The tools from pdfsandwich on that the requested output needs, in order. */
  function Needed(x: Execs, a: Args): seq<Exec> {
    var kind := Upper(a.ocrType);
    [x.pdfsandwich]
    + (if kind == "COMBINEDPDF" then [x.pdftk] + (if a.ocrOptimize then [x.gs] else [])
       else if kind == "TXT" then [x.pdftotext] else [])
  }

  predicate KnownType(a: Args) { Upper(a.ocrType) in {"COMBINEDPDF", "OCRLAYERONLY", "TXT"} }

  /** If every needed tool does its work, whatever else is in the file system, the composition is
      delivered and nothing is flagged; and the flags of pdfsandwich in it say the language and the
      configuration asked for. */
  lemma WorkingToolsDeliver(t: Tools, x: Execs, a: Args, files: map<string, Bytes>, f: string, pdf: Bytes)
    returns (flags: seq<string>)
    requires KnownType(a) && forall k :: 0 <= k < |Needed(x, a)| ==> Needed(x, a)[k].Done?
    ensures var e := PdfEnding(t, x, a, files, f, Some(pdf));
            && Unflagged(e) && e.content == Composition(t, flags, a, pdf) && e.content.Some?
            && Delivered(t, x, e) == if x.readable then Some(t.encode(e.content.value)) else None
    ensures ReadFlags(flags).Some? && ReadFlags(flags).value.0 == a.lang
    ensures PlainKeys(a.pairs) ==> ReadFlags(flags).value.1 == a.pairs
  {
    flags := Flags(a);
    FlagsReadBackIffKeysPlain(a);
    var n := Needed(x, a);
    assert n[0] == x.pdfsandwich;
    if Upper(a.ocrType) != "OCRLAYERONLY" { assert n[1].Done?; }
    if |n| == 3 { assert n[2].Done?; }
  }

  /** As long as no tool exits with 0 without having worked, a failure is flagged exactly if some
      needed tool fails or the output type is unknown. */
  lemma FlaggedIffToolFails(t: Tools, x: Execs, a: Args, files: map<string, Bytes>, f: string, pdf: Bytes)
    requires forall k :: 0 <= k < |Needed(x, a)| ==> !Needed(x, a)[k].Hollow?
    ensures !Unflagged(PdfEnding(t, x, a, files, f, Some(pdf))) <==>
            !KnownType(a) || exists k :: 0 <= k < |Needed(x, a)| && Needed(x, a)[k].Broken?
  {
    var n := Needed(x, a);
    assert n[0] == x.pdfsandwich && !n[0].Hollow?;
    if KnownType(a) && Upper(a.ocrType) != "OCRLAYERONLY" {
      assert !n[1].Hollow?;
      if |n| == 3 { assert !n[2].Hollow?; }
    }
  }

  /** The output type is compared in upper case: letters change case, everything else stays. */
  lemma {:induction false} UpperMeaning(s: string)
    ensures |Upper(s)| == |s|
    ensures forall k :: 0 <= k < |s| ==>
              Upper(s)[k] == if 'a' <= s[k] <= 'z' then ((s[k] as int) - 32) as char else s[k]
  {
    if s != "" {
      UpperMeaning(s[..|s| - 1]);
    }
  }

  /** The tool that writes the file to deliver, and that file. */
  function LastTool(x: Execs, a: Args): Exec { Needed(x, a)[|Needed(x, a)| - 1] }

  function ResultFile(a: Args, f: string): string {
    var kind := Upper(a.ocrType);
    if kind == "COMBINEDPDF" then if a.ocrOptimize then Compressed(f) else Combined(f)
    else if kind == "TXT" then TextFile(f)
    else Layer(f)
  }

  /** Without a flag, the result file is missing exactly if its tool exited with 0 without writing
      it and it was not there before. */
  lemma MissingIffHollow(t: Tools, x: Execs, a: Args, files: map<string, Bytes>, f: string, pdf: Option<Bytes>)
    requires Unflagged(PdfEnding(t, x, a, files, f, pdf))
    ensures var e := PdfEnding(t, x, a, files, f, pdf);
            && e.file == ResultFile(a, f)
            && (e.content.None? <==> LastTool(x, a) == Hollow(None) && ResultFile(a, f) !in files)
  {
  }

  /** Which early returns carry no error: those after pdftk and gs, and no others. */
  lemma SilentStopIff(t: Tools, x: Execs, a: Args, files: map<string, Bytes>, f: string, pdf: Option<Bytes>)
    requires PdfEnding(t, x, a, files, f, pdf).Stops?
    ensures PdfEnding(t, x, a, files, f, pdf) == Stops(false) <==>
            LayerStage(t, x, a, files, f, pdf).ok && Upper(a.ocrType) == "COMBINEDPDF"
    ensures x.pdfsandwich.Broken? || (x.pdfsandwich.Done? && pdf.None?) <==> !LayerStage(t, x, a, files, f, pdf).ok
  {
  }

  /** Of whole runs: only a combined PDF can fail without an error, and a failed conversion cannot. */
  lemma SilentFailureIff(t: Tools, x: Execs, a: Args, tiff: bool, files: map<string, Bytes>, input: string)
    requires input in files
    ensures var src := Source(t, x, a, tiff, input, files[input], Lookup(files, Pdf(input)));
            RunEnding(t, x, a, tiff, files, input) == Stops(false) <==>
              && src.Some? && LayerStage(t, x, a, files, src.value.0, src.value.1).ok
              && Upper(a.ocrType) == "COMBINEDPDF" && RunEnding(t, x, a, tiff, files, input).Stops?
  {
    var src := Source(t, x, a, tiff, input, files[input], Lookup(files, Pdf(input)));
    if src.Some? && PdfEnding(t, x, a, files, src.value.0, src.value.1).Stops? {
      SilentStopIff(t, x, a, files, src.value.0, src.value.1);
    }
  }

  /** The temporary files recorded for deletion in a run without a flag. */
  function Recorded(a: Args, input: string, f: string): seq<string> {
    var kind := Upper(a.ocrType);
    [input]
    + (if kind == "COMBINEDPDF" then [Combined(f)] + (if a.ocrOptimize then [Compressed(f)] else [])
       else if kind == "TXT" then [TextFile(f)] else [])
  }

  function DerivedFiles(f: string): set<string> {
    {Layer(f), Combined(f), Compressed(f), TextFile(f)}
  }

  // ----- the engine -----

  const ERROR := OcrResult("", "error", "")

  method ConvertImageToPdf(t: Tools, x: Execs, fs: FileSystem, input: string) returns (f: string)
    requires input in fs.files
    modifies fs
    ensures var c := Converted(t.convert, old(fs.files)[input], x.convert, Lookup(old(fs.files), Pdf(input)));
            f == (if c.ok then Pdf(input) else "") && Lookup(fs.files, Pdf(input)) == c.content
    ensures OnlyWrites(old(fs.files), fs.files, {Pdf(input)})
  {
    var ok := fs.Execute(Pdf(input), Some(t.convert(fs.files[input])), x.convert);
    f := if ok then Pdf(input) else "";
  }

  method Tiff2Pdf(t: Tools, x: Execs, fs: FileSystem, input: string) returns (f: string)
    requires input in fs.files
    modifies fs
    ensures var c := Converted(t.tiff2pdf, old(fs.files)[input], x.tiff2pdf, Lookup(old(fs.files), Pdf(input)));
            f == (if c.ok then Pdf(input) else "") && Lookup(fs.files, Pdf(input)) == c.content
    ensures OnlyWrites(old(fs.files), fs.files, {Pdf(input)})
  {
    var ok := fs.Execute(Pdf(input), Some(t.tiff2pdf(fs.files[input])), x.tiff2pdf);
    f := if ok then Pdf(input) else "";
  }

  /** The configured converter, then the other one; an empty name means that both failed. */
  method ConvertTiff(t: Tools, x: Execs, fs: FileSystem, a: Args, input: string) returns (f: string)
    requires input in fs.files && input != ""
    modifies fs
    ensures var src := Source(t, x, a, true, input, old(fs.files)[input], Lookup(old(fs.files), Pdf(input)));
            && (f == "" <==> src.None?)
            && (src.Some? ==> f == src.value.0 && Lookup(fs.files, f) == src.value.1)
    ensures OnlyWrites(old(fs.files), fs.files, {Pdf(input)})
  {
    f := input;
    var alternativeConverter := "";
    NamesNeverCollide(input, input);
    if a.t2pConverter == "convert" {
      alternativeConverter := "tiff2pdf";
      f := ConvertImageToPdf(t, x, fs, input);
    } else if a.t2pConverter == "tiff2pdf" {
      alternativeConverter := "convert";
      f := Tiff2Pdf(t, x, fs, input);
    }
    if f == "" {
      assert Lookup(fs.files, input) == Lookup(old(fs.files), input);
      if alternativeConverter == "convert" {
        f := ConvertImageToPdf(t, x, fs, input);
      } else {
        f := Tiff2Pdf(t, x, fs, input);
      }
    }
  }

  /** The PDF to start from: of a TIFF, a converted one. */
  method ToPdf(t: Tools, x: Execs, fs: FileSystem, a: Args, input: string, fileType: string) returns (f: string)
    requires input in fs.files && input != ""
    modifies fs
    ensures var before := old(fs.files);
            var src := Source(t, x, a, fileType == "TIFF", input, before[input], Lookup(before, Pdf(input)));
            && (f == "" <==> src.None?)
            && (src.Some? ==> f == src.value.0 && f in {input, input + ".pdf"} && Lookup(fs.files, f) == src.value.1)
    ensures OnlyWrites(old(fs.files), fs.files, {Pdf(input)}) && Lookup(fs.files, input) == Lookup(old(fs.files), input)
  {
    f := input;
    NamesNeverCollide(input, input);
    if fileType == "TIFF" {
      f := ConvertTiff(t, x, fs, a, input);
    }
  }

  /** A stage's file to deliver with the temporary files it recorded, or an early return; both may
      come with the error flag. */
  datatype Produced = Stopped(failed: bool) | Delivers(file: string, recorded: seq<string>, flagged: bool)

  /** `p` and the files after it are what the specification says. */
  ghost predicate Meets(p: Produced, e: Ending, files: map<string, Bytes>) {
    match e
    case Stops(failed) => p == Stopped(failed)
    case Reads(file, content, flagged) =>
      p.Delivers? && p.file == file && p.flagged == flagged && Lookup(files, file) == content
  }

  /** pdftk, and gs if asked for. */
  method Combine(t: Tools, x: Execs, fs: FileSystem, a: Args, f: string, layer: string) returns (p: Produced)
    requires layer == Layer(f)
    modifies fs
    ensures Meets(p, CombinedEnding(t, x, a, old(fs.files), f, Lookup(old(fs.files), layer), Lookup(old(fs.files), f)),
                  fs.files)
    ensures OnlyWrites(old(fs.files), fs.files, {Combined(f), Compressed(f)})
    ensures p.Delivers? ==> p.recorded == [Combined(f)] + if a.ocrOptimize then [Compressed(f)] else []
  {
    var tmpOutCombinedPdf := Combined(f);
    var filesToDelete := [tmpOutCombinedPdf];
    NamesNeverCollide(f, f);
    var stamped := Stamped(t, Lookup(fs.files, layer), Lookup(fs.files, f));
    var ok := fs.Execute(tmpOutCombinedPdf, stamped, x.pdftk);
    if !ok {
      return Stopped(false);
    }
    if !a.ocrOptimize {
      return Delivers(tmpOutCombinedPdf, filesToDelete, false);
    }
    var tmpOutCompressedPdf := Compressed(f);
    filesToDelete := filesToDelete + [tmpOutCompressedPdf];
    assert Combined(f)[|f| + 5] != Compressed(f)[|f| + 5];
    ok := fs.Execute(tmpOutCompressedPdf, Over(t.gs, Lookup(fs.files, tmpOutCombinedPdf)), x.gs);
    p := if ok then Delivers(tmpOutCompressedPdf, filesToDelete, false) else Stopped(false);
  }

  method Produce(t: Tools, x: Execs, fs: FileSystem, a: Args, f: string, layer: string) returns (p: Produced)
    requires layer == Layer(f)
    modifies fs
    ensures Meets(p, LayerEnding(t, x, a, old(fs.files), f, Lookup(old(fs.files), layer), Lookup(old(fs.files), f)),
                  fs.files)
    ensures OnlyWrites(old(fs.files), fs.files, DerivedFiles(f) - {Layer(f)})
    ensures p.Delivers? ==> forall input :: [input] + p.recorded == Recorded(a, input, f)
  {
    ExtOfLayer(f);
    NamesNeverCollide(f, f);
    DerivedDiffer(f);
    var ocrType := Upper(a.ocrType);
    if ocrType == "COMBINEDPDF" {
      p := Combine(t, x, fs, a, f, layer);
    } else if ocrType == "OCRLAYERONLY" {
      p := Delivers(layer, [], false);
    } else if ocrType == "TXT" {
      // pdftotext puts the text beside the layer file
      var textFile := TrimSuffix(layer, Ext(layer)) + ".txt";
      var ok := fs.Execute(textFile, Over(t.pdftotext, Lookup(fs.files, layer)), x.pdftotext);
      p := Delivers(textFile, [textFile], !ok);
    } else {
      p := Stopped(true);
    }
  }

  lemma DerivedDiffer(f: string)
    ensures Layer(f) !in {Combined(f), Compressed(f), TextFile(f)}
  {
    ExtOfLayer(f);
    assert Layer(f)[|f| + 1] != Combined(f)[|f| + 1] && Layer(f)[|f| + 1] != Compressed(f)[|f| + 1];
    assert Layer(f)[|f| + 5] != TextFile(f)[|f| + 5];
  }

  /** Writing the text layer changes nothing that the later stages find in their output files. */
  lemma LayerDoesNotMatter(t: Tools, x: Execs, a: Args, before: map<string, Bytes>, after: map<string, Bytes>,
                           f: string)
    requires OnlyWrites(before, after, {Layer(f)})
    ensures forall layer, pdf ::
              LayerEnding(t, x, a, after, f, layer, pdf) == LayerEnding(t, x, a, before, f, layer, pdf)
  {
    DerivedDiffer(f);
  }

  /** What one run of the stages leaves behind for the deferred cleanup. */
  datatype Ran = Ran(result: OcrResult, failed: bool, errorFlag: bool, filesToDelete: seq<string>)

  /** Result and error of a run that ends with `e`. Of the early returns, those after pdftk and gs
      return no error. */
  predicate Reports(t: Tools, x: Execs, e: Ending, result: OcrResult, failed: bool) {
    var d := Delivered(t, x, e);
    && result == (if d.Some? then OcrResult(d.value, "done", "") else ERROR)
    && (failed <==> d.None? && e != Stops(false))
  }

  /** The stages after conversion, from the PDF `f`. The final read may fail without a flag. */
  method ProcessPdf(t: Tools, x: Execs, fs: FileSystem, a: Args, input: string, f: string) returns (r: Ran)
    requires f == input || f == Pdf(input)
    modifies fs
    ensures var e := PdfEnding(t, x, a, old(fs.files), f, Lookup(old(fs.files), f));
            && Reports(t, x, e, r.result, r.failed)
            && (r.errorFlag <==> !Unflagged(e))
    ensures OnlyWrites(old(fs.files), fs.files, DerivedFiles(f))
    ensures !r.errorFlag ==> r.filesToDelete == Recorded(a, input, f)
    ensures Lookup(fs.files, Layer(f)) == LayerStage(t, x, a, old(fs.files), f, Lookup(old(fs.files), f)).content
  {
    NamesNeverCollide(f, f);
    var filesToDelete := [input];
    var cmdArgs, layer := BuildCmdLineArgs(f, a);
    var flags := cmdArgs[..|cmdArgs| - 3];
    assert flags == Flags(a);
    var ok := fs.Execute(layer, Sandwiched(t, flags, Lookup(fs.files, f)), x.pdfsandwich);
    if !ok {
      return Ran(ERROR, true, true, filesToDelete);
    }
    LayerDoesNotMatter(t, x, a, old(fs.files), fs.files, f);
    var p := Produce(t, x, fs, a, f, layer);
    if p.Stopped? {
      return Ran(ERROR, p.failed, true, filesToDelete);
    }
    filesToDelete := filesToDelete + p.recorded;
    if p.file !in fs.files || !x.readable {
      return Ran(ERROR, true, p.flagged, filesToDelete);
    }
    r := Ran(OcrResult(t.encode(fs.files[p.file]), "done", ""), false, p.flagged, filesToDelete);
  }

  /** Converting writes nothing that the later stages find in their output files. */
  lemma ConversionDoesNotMatter(t: Tools, x: Execs, a: Args, before: map<string, Bytes>, after: map<string, Bytes>,
                                input: string, f: string, pdf: Option<Bytes>)
    requires OnlyWrites(before, after, {Pdf(input)}) && (f == input || f == Pdf(input))
    ensures PdfEnding(t, x, a, after, f, pdf) == PdfEnding(t, x, a, before, f, pdf)
    ensures LayerStage(t, x, a, after, f, pdf) == LayerStage(t, x, a, before, f, pdf)
  {
    NamesNeverCollide(input, f);
  }

  /** The recorded files, by name: the input; of a combined PDF, the combined and the compressed file;
      of a text, the text file. */
  lemma RecordedNames(a: Args, input: string, f: string, n: string)
    ensures n in Recorded(a, input, f) <==>
              || n == input
              || (Upper(a.ocrType) == "COMBINEDPDF" && n == f + "_comb.pdf")
              || (Upper(a.ocrType) == "COMBINEDPDF" && a.ocrOptimize && n == f + "_compr.pdf")
              || (Upper(a.ocrType) == "TXT" && n == f + "_ocr.txt")
  {
    ExtOfLayer(f);
  }

  lemma RecordedAreNotKept(a: Args, input: string, f: string)
    requires f == input || f == Pdf(input)
    ensures Layer(f) !in Recorded(a, input, f) && (f != input ==> f !in Recorded(a, input, f))
    ensures forall n :: n in Recorded(a, input, f) ==> n in {input} + DerivedFiles(f)
  {
    NamesNeverCollide(input, f);
    DerivedDiffer(f);
  }

  /** The deferred cleanup removes files: the image could be converted, files are not to be kept and
      no failure was flagged, whatever the result. */
  predicate Cleans(t: Tools, x: Execs, a: Args, tiff: bool, files: map<string, Bytes>, input: string)
    requires input in files
  {
    !a.saveFiles && Unflagged(RunEnding(t, x, a, tiff, files, input))
  }

  /** After the cleanup: every recorded file is gone; the text layer and the converted PDF, which
      are not recorded, are as the tools left them. */
  predicate Cleaned(t: Tools, x: Execs, a: Args, input: string, src: (string, Option<Bytes>),
                    before: map<string, Bytes>, after: map<string, Bytes>) {
    var f := src.0;
    && (forall n :: n in Recorded(a, input, f) ==> n !in after)
    && (forall n :: n in before && n !in Recorded(a, input, f) ==> n in after)
    && Lookup(after, Layer(f)) == LayerStage(t, x, a, before, f, src.1).content
    && (f != input ==> Lookup(after, f) == src.1)
  }

  function OwnFiles(input: string): set<string> {
    {input, Pdf(input)} + DerivedFiles(input) + DerivedFiles(Pdf(input))
  }

  /** Files that neither are the input nor derive their names from it stay as they are. */
  ghost predicate OthersKept(before: map<string, Bytes>, after: map<string, Bytes>, input: string) {
    forall n :: n in before && n !in OwnFiles(input) ==> n in after && after[n] == before[n]
  }

  /** The engine delivers what the pipeline leaves in the result file. On every path, exactly the
      recorded files are removed if the cleanup runs, and no file otherwise. */
  method ProcessImageFile(t: Tools, x: Execs, fs: FileSystem, input: string, fileType: string, a: Args)
    returns (result: OcrResult, failed: bool)
    requires input in fs.files && input != ""
    modifies fs
    ensures Reports(t, x, RunEnding(t, x, a, fileType == "TIFF", old(fs.files), input), result, failed)
    ensures var tiff, before := fileType == "TIFF", old(fs.files);
            var src := Source(t, x, a, tiff, input, before[input], Lookup(before, Pdf(input)));
            if Cleans(t, x, a, tiff, before, input) then Cleaned(t, x, a, input, src.value, before, fs.files)
            else before.Keys <= fs.files.Keys && fs.files[input] == before[input]
    ensures var d := Delivered(t, x, RunEnding(t, x, a, fileType == "TIFF", old(fs.files), input));
            result == if d.Some? then OcrResult(d.value, "done", "") else OcrResult("", "error", "")
    ensures failed && input !in fs.files <==> LosesInput(t, x, a, fileType == "TIFF", old(fs.files), input)
    ensures OthersKept(old(fs.files), fs.files, input)
  {
    ghost var before := fs.files;
    var f := ToPdf(t, x, fs, a, input, fileType);
    if f == "" {
      NothingElseWritten(before, fs.files, fs.files, input, input);
      return ERROR, true;
    }
    ghost var converted := fs.files;
    var r := ProcessPdf(t, x, fs, a, input, f);
    result, failed := r.result, r.failed;
    ConversionDoesNotMatter(t, x, a, before, converted, input, f, Lookup(converted, f));
    NothingElseWritten(before, converted, fs.files, input, f);
    if !a.saveFiles && !r.errorFlag {
      CleaningCleans(t, x, a, input, (f, Lookup(converted, f)), before, fs.files);
      CleanUp(fs, r.filesToDelete);
    }
  }

  lemma CleaningCleans(t: Tools, x: Execs, a: Args, input: string, src: (string, Option<Bytes>),
                       before: map<string, Bytes>, written: map<string, Bytes>)
    requires (src.0 == input || src.0 == Pdf(input)) && before.Keys <= written.Keys && Lookup(written, src.0) == src.1
    requires Lookup(written, Layer(src.0)) == LayerStage(t, x, a, before, src.0, src.1).content
    requires OthersKept(before, written, input)
    ensures var after := written - (set n | n in Recorded(a, input, src.0));
            Cleaned(t, x, a, input, src, before, after) && OthersKept(before, after, input)
  {
    RecordedAreNotKept(a, input, src.0);
  }

  lemma NothingElseWritten(before: map<string, Bytes>, converted: map<string, Bytes>, after: map<string, Bytes>,
                           input: string, f: string)
    requires input in before && (f == input || f == Pdf(input))
    requires OnlyWrites(before, converted, {Pdf(input)}) && OnlyWrites(converted, after, DerivedFiles(f))
    ensures before.Keys <= after.Keys && after[input] == before[input]
    ensures Lookup(after, f) == Lookup(converted, f)
    ensures OthersKept(before, after, input)
  {
    NamesNeverCollide(input, f);
    assert Lookup(after, input) == Lookup(converted, input) == Lookup(before, input);
    forall n | n in before && n !in OwnFiles(input)
      ensures n in after && after[n] == before[n]
    {
      assert Lookup(after, n) == Lookup(converted, n) == Lookup(before, n);
    }
  }

  method CleanUp(fs: FileSystem, filesToDelete: seq<string>)
    modifies fs
    ensures fs.files == old(fs.files) - (set n | n in filesToDelete)
  {
    for i := 0 to |filesToDelete|
      invariant fs.files == old(fs.files) - (set n | n in filesToDelete[..i])
    {
      fs.Remove(filesToDelete[i]);
      assert filesToDelete[..i + 1] == filesToDelete[..i] + [filesToDelete[i]];
    }
    assert filesToDelete[..|filesToDelete|] == filesToDelete;
  }

  // ----- failed runs that lose their input -----

  /** No result, and yet the cleanup runs, the input among the recorded files. */
  predicate LosesInput(t: Tools, x: Execs, a: Args, tiff: bool, files: map<string, Bytes>, input: string)
    requires input in files
  {
    Delivered(t, x, RunEnding(t, x, a, tiff, files, input)).None? && Cleans(t, x, a, tiff, files, input)
  }

  /** A run without a result loses its input if and only if the cleanup runs and the result file
      cannot be read: be it unreadable, or because its tool exited with 0 without writing it and
      it was not there before. */
  lemma LosesInputIff(t: Tools, x: Execs, a: Args, tiff: bool, files: map<string, Bytes>, input: string)
    requires input in files
    ensures var src := Source(t, x, a, tiff, input, files[input], Lookup(files, Pdf(input)));
            LosesInput(t, x, a, tiff, files, input) <==>
              && Cleans(t, x, a, tiff, files, input)
              && (!x.readable || (LastTool(x, a) == Hollow(None) && ResultFile(a, src.value.0) !in files))
  {
    var src := Source(t, x, a, tiff, input, files[input], Lookup(files, Pdf(input)));
    if src.Some? && Unflagged(RunEnding(t, x, a, tiff, files, input)) {
      MissingIffHollow(t, x, a, files, src.value.0, src.value.1);
    }
  }

  /** With tools that exit with 0 only after their work, that comes down to a result file of a good
      run that cannot be read. */
  lemma HonestToolsLoseInputIff(t: Tools, x: Execs, a: Args, files: map<string, Bytes>, input: string)
    requires input in files && forall k :: 0 <= k < |Needed(x, a)| ==> !Needed(x, a)[k].Hollow?
    ensures LosesInput(t, x, a, false, files, input) <==>
            && !a.saveFiles && KnownType(a) && !x.readable
            && forall k :: 0 <= k < |Needed(x, a)| ==> Needed(x, a)[k].Done?
  {
    LosesInputIff(t, x, a, false, files, input);
    FlaggedIffToolFails(t, x, a, files, input, files[input]);
    assert LastTool(x, a) == Needed(x, a)[|Needed(x, a)| - 1];
    assert forall k :: 0 <= k < |Needed(x, a)| ==> (Needed(x, a)[k].Done? <==> !Needed(x, a)[k].Broken?);
  }

  /** For instance: of a PDF only the text layer is wanted, and pdfsandwich exits with 0 without
      having written it. */
  lemma HollowSandwichLosesInput(t: Tools, x: Execs, img: Bytes)
    requires x.pdfsandwich == Hollow(None)
    ensures var a := Args("", [], "OCRLAYERONLY", false, false, "convert");
            LosesInput(t, x, a, false, map["scan" := img], "scan")
  {
    var a := Args("", [], "OCRLAYERONLY", false, false, "convert");
    assert Upper("OCRLAYERONLY") == "OCRLAYERONLY" by { UpperKeeps("OCRLAYERONLY"); }
    assert Layer("scan")[4] == '_';
    LosesInputIff(t, x, a, false, map["scan" := img], "scan");
  }

  lemma UpperKeeps(s: string)
    requires forall k :: 0 <= k < |s| ==> !('a' <= s[k] <= 'z')
    ensures Upper(s) == s
  {
    UpperMeaning(s);
  }
}

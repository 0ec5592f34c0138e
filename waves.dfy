/**
 * XBeachWaves: the choice of wave boundary condition file (`bcfile`) and
 * wave type (`instat`) from the dimensions of the wave data, and the files
 * the component writes: one JONSWAP parameter file per time slice, the
 * `FILELIST` index of a time series and the `LOCLIST` index of locations.
 *
 * The OceanWaves object is seen only through its three dimension flags and
 * the numbers it hands out, already rendered as text: each time and each
 * location coordinate as `'%10.4f'` renders it, and the wave height `Hm0`
 * of each `iterdim('_time')` slice as `'%0.6f'` renders it.
 */
module Waves {
  import opened Wrappers
  import opened Strings
  import opened OrderedDicts
  import opened Params
  import opened Files

  const WavesFile := "waves.txt"
  const FilelistFile := "filelist.txt"
  const LoclistFile := "loclist.txt"
  const SpectrumFile := "waves.SP2"

  /** `'%10.4f' % rt` for the fixed reference time `rt = 1.` */
  const ReferenceTime := "    1.0000"

  datatype WaveSource = WaveSource(
    hasTime: bool,
    hasLocation: bool,
    hasFrequency: bool,
    times: seq<string>,                // each value of `_time`
    locations: seq<(string, string)>,  // `x[i]` and `y[i]` for each `_location`
    energies: seq<string>)             // `Hm0` of each `iterdim('_time')` slice

  datatype Waves = Waves(source: WaveSource, params: Record)

  /** The rendered numbers hold no line break (true of every `'%f'` rendering). */
  predicate OneLine(w: WaveSource)
  {
    && (forall i :: 0 <= i < |w.times| ==> '\n' !in w.times[i])
    && (forall i :: 0 <= i < |w.locations| ==> '\n' !in w.locations[i].0 && '\n' !in w.locations[i].1)
    && (forall i :: 0 <= i < |w.energies| ==> '\n' !in w.energies[i])
  }

  // ---------------------------------------------------------------------------
  // The constructor: bcfile and instat

  /** The boundary file: the time index, else the location index, else the spectrum, else the JONSWAP file. */
  function BoundaryFile(w: WaveSource): string
  {
    if w.hasTime then FilelistFile
    else if w.hasLocation then LoclistFile
    else if w.hasFrequency then SpectrumFile
    else WavesFile
  }

  /** A spectrum is given to XBeach as a SWAN file, anything else as JONSWAP parameters. */
  function Instat(w: WaveSource): string
  {
    if w.hasFrequency then "swan" else "jons"
  }

  /** `XBeachWaves(...)`: a record of `bcfile` then `instat` and nothing else. */
  function NewWaves(w: WaveSource): (r: Waves)
    ensures r.source == w
    ensures Keys(r.params) == ["bcfile", "instat"] && Unique(Keys(r.params))
    ensures Get(r.params, "bcfile") == Some(VStr(BoundaryFile(w)))
    ensures Get(r.params, "instat") == Some(VStr(Instat(w)))
  {
    assert "bcfile"[0] != "instat"[0];
    Waves(w, [("bcfile", VStr(BoundaryFile(w))), ("instat", VStr(Instat(w)))])
  }

  lemma FileNamesDistinct()
    ensures WavesFile != FilelistFile && WavesFile != LoclistFile && WavesFile != SpectrumFile
    ensures FilelistFile != LoclistFile && FilelistFile != SpectrumFile && LoclistFile != SpectrumFile
  {
    assert WavesFile[6] != SpectrumFile[6];
  }

  /** Each boundary file is chosen exactly when the flags the priority order gives it hold. */
  lemma BoundaryFilePriority(w: WaveSource)
    ensures BoundaryFile(w) == FilelistFile <==> w.hasTime
    ensures BoundaryFile(w) == LoclistFile <==> !w.hasTime && w.hasLocation
    ensures BoundaryFile(w) == SpectrumFile <==> !w.hasTime && !w.hasLocation && w.hasFrequency
    ensures BoundaryFile(w) == WavesFile <==> !w.hasTime && !w.hasLocation && !w.hasFrequency
  {
    FileNamesDistinct();
  }

  /** `instat` depends on the frequency dimension alone. */
  lemma InstatChoice(w: WaveSource)
    ensures Instat(w) == "swan" <==> w.hasFrequency
    ensures Instat(w) == "jons" <==> !w.hasFrequency
  {
    assert "swan"[0] != "jons"[0];
  }

  // ---------------------------------------------------------------------------
  // write_jonswap

  /** The file of slice `i`: enumerated for a time series, the single `waves.txt` otherwise. */
  function JonswapName(w: WaveSource, i: nat): string
  {
    if w.hasTime then EnumerateFilename(WavesFile, i) else WavesFile
  }

  /** The six lines of a JONSWAP file; only the wave height varies. */
  function JonswapLines(hm0: string): seq<string>
  {
    ["Hm0 = " + hm0, "Tp = 12.000000", "mainang = 0.000000", "gammajsp = 3.3", "s = 10.", "fnyq = 0.3"]
  }

  function JonswapText(hm0: string): string
  {
    Lines(JonswapLines(hm0))
  }

  /** The files after the first `n` slices are written, each replacing any file of its name. */
  function JonswapFiles(w: WaveSource, fs: FileSystem, n: nat): FileSystem
    requires n <= |w.energies|
  {
    if n == 0 then fs
    else JonswapFiles(w, fs, n - 1)[JonswapName(w, n - 1) := Text(JonswapText(w.energies[n - 1]))]
  }

  function JonswapNames(w: WaveSource, n: nat): set<string>
  {
    set i: nat | i < n :: JonswapName(w, i)
  }

  /** `write_jonswap`: one file per slice, in slice order. */
  method WriteJonswap(w: WaveSource, fs0: FileSystem) returns (fs: FileSystem)
    ensures fs == JonswapFiles(w, fs0, |w.energies|)
  {
    fs := fs0;
    var i := 0;
    while i < |w.energies|
      invariant 0 <= i <= |w.energies|
      invariant fs == JonswapFiles(w, fs0, i)
    {
      var fname := if w.hasTime then EnumerateFilename(WavesFile, i) else WavesFile;
      fs := fs[fname := Text(JonswapText(w.energies[i]))];
      i := i + 1;
    }
  }

  /**
   * A JONSWAP file reads back as six lines: the wave height of its slice,
   * then the fixed peak period, direction, peak enhancement, spreading and
   * Nyquist frequency.
   */
  lemma JonswapFileLines(hm0: string)
    requires '\n' !in hm0
    ensures var lines := Split(JonswapText(hm0), '\n');
      && |lines| == 7
      && lines[0] == "Hm0 = " + hm0
      && lines[1..6] == ["Tp = 12.000000", "mainang = 0.000000", "gammajsp = 3.3", "s = 10.", "fnyq = 0.3"]
      && lines[6] == ""
  {
    var ls := JonswapLines(hm0);
    assert '\n' !in "Hm0 = ";
    forall i | 0 <= i < |ls| ensures '\n' !in ls[i] {
      if i == 0 {
        assert forall j :: 0 <= j < |ls[0]| ==> ls[0][j] == ("Hm0 = " + hm0)[j];
      }
    }
    SplitLines(ls);
  }

  /**
   * Slice `i` is in the file named for it once the first `n` slices are
   * written, provided no later slice wrote the same name: always for a time
   * series, only for the last slice otherwise.
   */
  lemma {:induction false} JonswapWritten(w: WaveSource, fs: FileSystem, n: nat, i: nat)
    requires i < n <= |w.energies|
    requires w.hasTime || i == n - 1
    ensures JonswapName(w, i) in JonswapFiles(w, fs, n)
    ensures JonswapFiles(w, fs, n)[JonswapName(w, i)] == Text(JonswapText(w.energies[i]))
  {
    if i < n - 1 {
      JonswapWritten(w, fs, n - 1, i);
      if JonswapName(w, n - 1) == JonswapName(w, i) {
        EnumerateFilenameInjective(WavesFile, n - 1, i);
      }
    }
  }

  /** The slices add exactly their names, and every other file is left as it was. */
  lemma {:induction false} JonswapKeys(w: WaveSource, fs: FileSystem, n: nat)
    requires n <= |w.energies|
    ensures JonswapFiles(w, fs, n).Keys == fs.Keys + JonswapNames(w, n)
    ensures forall name :: name in fs && name !in JonswapNames(w, n) ==> JonswapFiles(w, fs, n)[name] == fs[name]
  {
    if n > 0 {
      var prev, name := JonswapFiles(w, fs, n - 1), JonswapName(w, n - 1);
      var c := Text(JonswapText(w.energies[n - 1]));
      assert JonswapFiles(w, fs, n) == prev[name := c];
      JonswapKeys(w, fs, n - 1);
      assert JonswapNames(w, n) == JonswapNames(w, n - 1) + {name};
    } else {
      assert JonswapNames(w, n) == {};
    }
  }

  // ---------------------------------------------------------------------------
  // write_loclist

  /** Location `i` refers to its enumerated spectrum file, or its enumerated JONSWAP file. */
  function LoclistRef(w: WaveSource, i: nat): string
  {
    if w.hasFrequency then EnumerateFilename(SpectrumFile, i) else EnumerateFilename(WavesFile, i)
  }

  function LoclistRow(w: WaveSource, i: nat): string
    requires i < |w.locations|
  {
    w.locations[i].0 + " " + w.locations[i].1 + " " + LoclistRef(w, i)
  }

  function LoclistRows(w: WaveSource): (r: seq<string>)
    ensures |r| == |w.locations|
  {
    seq(|w.locations|, i requires 0 <= i < |w.locations| => LoclistRow(w, i))
  }

  function LoclistText(w: WaveSource): string
  {
    Lines(["LOCLIST"] + LoclistRows(w))
  }

  function LoclistFiles(w: WaveSource, fs: FileSystem): FileSystem
  {
    fs[LoclistFile := Text(LoclistText(w))]
  }

  /** Writing the location index again, as every time step does, changes nothing. */
  lemma LoclistRewrite(w: WaveSource, fs: FileSystem)
    ensures LoclistFiles(w, LoclistFiles(w, fs)) == LoclistFiles(w, fs)
  {
  }

  /** `write_loclist`: the header, then one row per location in order. */
  method WriteLoclist(w: WaveSource, fs0: FileSystem) returns (fs: FileSystem)
    ensures fs == LoclistFiles(w, fs0)
  {
    var rows := LoclistRows(w);
    var text := "LOCLIST\n";
    var i := 0;
    while i < |w.locations|
      invariant 0 <= i <= |w.locations|
      invariant text == Lines(["LOCLIST"] + rows[..i])
    {
      var fname := if w.hasFrequency then EnumerateFilename(SpectrumFile, i) else EnumerateFilename(WavesFile, i);
      var (x, y) := w.locations[i];
      assert fname == LoclistRef(w, i);
      var row := x + " " + y + " " + fname;
      assert row == rows[i];
      NextRow("LOCLIST", rows, i, text);
      text := text + row + "\n";
      i := i + 1;
    }
    assert rows[..i] == rows;
    fs := fs0[LoclistFile := Text(text)];
  }

  /** Writing row `i` extends the text of the header and the rows before it. */
  lemma NextRow(header: string, rows: seq<string>, i: nat, text: string)
    requires i < |rows| && text == Lines([header] + rows[..i])
    ensures text + rows[i] + "\n" == Lines([header] + rows[..i + 1])
  {
    AppendRow([header] + rows[..i], rows[i]);
    assert [header] + rows[..i + 1] == [header] + rows[..i] + [rows[i]];
  }

  /** Writing one more row appends it and its line break to the text so far. */
  lemma AppendRow(ls: seq<string>, row: string)
    ensures Lines(ls + [row]) == Lines(ls) + row + "\n"
  {
    LinesConcat(ls, [row]);
    assert Lines([row]) == row + "\n" + Lines([]);
  }

  // ---------------------------------------------------------------------------
  // write_filelist

  /**
   * Time step `i` refers to its enumerated location index if there are
   * locations, else to its enumerated spectrum file, else to its enumerated
   * JONSWAP file.
   */
  function FilelistRef(w: WaveSource, i: nat): string
  {
    if w.hasLocation then EnumerateFilename(LoclistFile, i)
    else if w.hasFrequency then EnumerateFilename(SpectrumFile, i)
    else EnumerateFilename(WavesFile, i)
  }

  function FilelistRow(w: WaveSource, i: nat): string
    requires i < |w.times|
  {
    w.times[i] + " " + ReferenceTime + " " + FilelistRef(w, i)
  }

  function FilelistRows(w: WaveSource): (r: seq<string>)
    ensures |r| == |w.times|
  {
    seq(|w.times|, i requires 0 <= i < |w.times| => FilelistRow(w, i))
  }

  function FilelistText(w: WaveSource): string
  {
    Lines(["FILELIST"] + FilelistRows(w))
  }

  /**
   * The files after `write_filelist`: the time index, and, when there are
   * locations and at least one time step, the location index, which each
   * time step writes again with the same text.
   */
  function FilelistFiles(w: WaveSource, fs: FileSystem): FileSystem
  {
    var withLocations := if w.hasLocation && |w.times| > 0 then LoclistFiles(w, fs) else fs;
    withLocations[FilelistFile := Text(FilelistText(w))]
  }

  /** `write_filelist`: the header, then one row per time step in order. */
  method WriteFilelist(w: WaveSource, fs0: FileSystem) returns (fs: FileSystem)
    ensures fs == FilelistFiles(w, fs0)
  {
    fs := fs0;
    var rows := FilelistRows(w);
    var text := "FILELIST\n";
    var i := 0;
    while i < |w.times|
      invariant 0 <= i <= |w.times|
      invariant text == Lines(["FILELIST"] + rows[..i])
      invariant fs == if w.hasLocation && i > 0 then LoclistFiles(w, fs0) else fs0
    {
      var fname;
      if w.hasLocation {
        fname := EnumerateFilename(LoclistFile, i);
        LoclistRewrite(w, fs0);
        fs := WriteLoclist(w, fs);
      } else if w.hasFrequency {
        fname := EnumerateFilename(SpectrumFile, i);
      } else {
        fname := EnumerateFilename(WavesFile, i);
      }
      assert fname == FilelistRef(w, i);
      var row := w.times[i] + " " + ReferenceTime + " " + fname;
      assert row == rows[i];
      NextRow("FILELIST", rows, i, text);
      text := text + row + "\n";
      i := i + 1;
    }
    assert rows[..i] == rows;
    fs := fs[FilelistFile := Text(text)];
  }

  // ---------------------------------------------------------------------------
  // Reading the index files back

  /** Enumerated names hold no space and no line break. */
  lemma EnumeratedPlain(fname: string, i: nat)
    requires ' ' !in fname && '\n' !in fname
    ensures ' ' !in EnumerateFilename(fname, i) && '\n' !in EnumerateFilename(fname, i)
  {
    EnumerateFilenameChars(fname, i, ' ');
    EnumerateFilenameChars(fname, i, '\n');
  }

  lemma ConstantNamesPlain()
    ensures ' ' !in WavesFile && '\n' !in WavesFile
    ensures ' ' !in LoclistFile && '\n' !in LoclistFile
    ensures ' ' !in SpectrumFile && '\n' !in SpectrumFile
  {
  }

  /** A row of rendered fields and a reference has no line break, and its last field is the reference. */
  lemma RowFields(fields: string, ref: string)
    requires '\n' !in fields && ' ' !in ref && '\n' !in ref
    ensures '\n' !in fields + " " + ref
    ensures LastField(fields + " " + ref) == ref
  {
    LastFieldAfter(fields, ref);
    var s := fields + " " + ref;
    forall j | 0 <= j < |s| ensures s[j] != '\n' {
      if j < |fields| {
        assert s[j] == fields[j];
      } else if j > |fields| {
        assert s[j] == ref[j - |fields| - 1];
      }
    }
  }

  /** The space-joined rendering of two fields holds no line break. */
  lemma FieldsOneLine(a: string, b: string)
    requires '\n' !in a && '\n' !in b
    ensures '\n' !in a + " " + b
  {
    var s := a + " " + b;
    forall j | 0 <= j < |s| ensures s[j] != '\n' {
      if j < |a| {
        assert s[j] == a[j];
      } else if j > |a| {
        assert s[j] == b[j - |a| - 1];
      }
    }
  }

  lemma FilelistRowRef(w: WaveSource, i: nat)
    requires OneLine(w) && i < |w.times|
    ensures '\n' !in FilelistRow(w, i)
    ensures LastField(FilelistRow(w, i)) == FilelistRef(w, i)
  {
    ConstantNamesPlain();
    EnumeratedPlain(LoclistFile, i);
    EnumeratedPlain(SpectrumFile, i);
    EnumeratedPlain(WavesFile, i);
    FieldsOneLine(w.times[i], ReferenceTime);
    RowFields(w.times[i] + " " + ReferenceTime, FilelistRef(w, i));
  }

  lemma LoclistRowRef(w: WaveSource, i: nat)
    requires OneLine(w) && i < |w.locations|
    ensures '\n' !in LoclistRow(w, i)
    ensures LastField(LoclistRow(w, i)) == LoclistRef(w, i)
  {
    ConstantNamesPlain();
    EnumeratedPlain(SpectrumFile, i);
    EnumeratedPlain(WavesFile, i);
    FieldsOneLine(w.locations[i].0, w.locations[i].1);
    RowFields(w.locations[i].0 + " " + w.locations[i].1, LoclistRef(w, i));
  }

  /**
   * The time index reads back as its header, then one line per time step
   * whose last field is the file that step refers to, then nothing.
   */
  lemma FilelistStructure(w: WaveSource)
    requires OneLine(w)
    ensures var lines := Split(FilelistText(w), '\n');
      && |lines| == |w.times| + 2
      && lines[0] == "FILELIST"
      && lines[|lines| - 1] == ""
      && forall i :: 0 <= i < |w.times| ==> lines[i + 1] == FilelistRow(w, i)
    ensures forall i :: 0 <= i < |w.times| ==> LastField(FilelistRow(w, i)) == FilelistRef(w, i)
  {
    FilelistLinesPlain(w);
    SplitLines(["FILELIST"] + FilelistRows(w));
    FilelistRefs(w);
  }

  /** No line of the time index holds a line break. */
  lemma FilelistLinesPlain(w: WaveSource)
    requires OneLine(w)
    ensures var ls := ["FILELIST"] + FilelistRows(w);
      forall i :: 0 <= i < |ls| ==> '\n' !in ls[i]
  {
    var ls := ["FILELIST"] + FilelistRows(w);
    forall i | 0 <= i < |ls| ensures '\n' !in ls[i] {
      if i > 0 {
        FilelistRowRef(w, i - 1);
      }
    }
  }

  /** Every row of the time index ends with the file it refers to. */
  lemma FilelistRefs(w: WaveSource)
    requires OneLine(w)
    ensures forall i :: 0 <= i < |w.times| ==> LastField(FilelistRow(w, i)) == FilelistRef(w, i)
  {
    forall i | 0 <= i < |w.times| ensures LastField(FilelistRow(w, i)) == FilelistRef(w, i) {
      FilelistRowRef(w, i);
    }
  }

  /**
   * The location index reads back as its header, then one line per
   * location whose last field is the file that location refers to.
   */
  lemma LoclistStructure(w: WaveSource)
    requires OneLine(w)
    ensures var lines := Split(LoclistText(w), '\n');
      && |lines| == |w.locations| + 2
      && lines[0] == "LOCLIST"
      && lines[|lines| - 1] == ""
      && forall i :: 0 <= i < |w.locations| ==> lines[i + 1] == LoclistRow(w, i)
    ensures forall i :: 0 <= i < |w.locations| ==> LastField(LoclistRow(w, i)) == LoclistRef(w, i)
  {
    var ls := ["LOCLIST"] + LoclistRows(w);
    forall i | 0 <= i < |ls| ensures '\n' !in ls[i] {
      if i > 0 {
        LoclistRowRef(w, i - 1);
      }
    }
    forall i | 0 <= i < |w.locations| ensures LastField(LoclistRow(w, i)) == LoclistRef(w, i) {
      LoclistRowRef(w, i);
    }
    SplitLines(ls);
  }

  /** Different rows of either index refer to different files. */
  lemma RefsDistinct(w: WaveSource, i: nat, j: nat)
    requires i != j
    ensures FilelistRef(w, i) != FilelistRef(w, j)
    ensures LoclistRef(w, i) != LoclistRef(w, j)
  {
    if FilelistRef(w, i) == FilelistRef(w, j) {
      var base := if w.hasLocation then LoclistFile else if w.hasFrequency then SpectrumFile else WavesFile;
      EnumerateFilenameInjective(base, i, j);
    }
    if LoclistRef(w, i) == LoclistRef(w, j) {
      EnumerateFilenameInjective(if w.hasFrequency then SpectrumFile else WavesFile, i, j);
    }
  }

  // ---------------------------------------------------------------------------
  // write: the dispatch

  /** The first half of `write`: the spectrum if there is a frequency dimension, else the JONSWAP files. */
  function SpectraFiles(w: WaveSource, fs: FileSystem): FileSystem
  {
    if w.hasFrequency then fs[SpectrumFile := Spectrum] else JonswapFiles(w, fs, |w.energies|)
  }

  function SpectraNames(w: WaveSource): set<string>
  {
    if w.hasFrequency then {SpectrumFile} else JonswapNames(w, |w.energies|)
  }

  /** The first half of `write` adds exactly its names and keeps every other file. */
  lemma SpectraKeys(w: WaveSource, fs: FileSystem)
    ensures SpectraFiles(w, fs).Keys == fs.Keys + SpectraNames(w)
    ensures forall name :: name in fs && name !in SpectraNames(w) ==> SpectraFiles(w, fs)[name] == fs[name]
  {
    JonswapKeys(w, fs, |w.energies|);
  }

  /**
   * The files after `write`: the spectrum if there is a frequency
   * dimension, else the JONSWAP files; then the time index if there is a
   * time dimension, else the location index if there are locations.
   */
  function WavesFiles(w: WaveSource, fs: FileSystem): FileSystem
  {
    var spectra := SpectraFiles(w, fs);
    if w.hasTime then FilelistFiles(w, spectra)
    else if w.hasLocation then LoclistFiles(w, spectra)
    else spectra
  }

  /** `XBeachWaves.write` */
  method WriteWaves(w: WaveSource, fs0: FileSystem) returns (fs: FileSystem)
    ensures fs == WavesFiles(w, fs0)
  {
    if w.hasFrequency {
      fs := fs0[SpectrumFile := Spectrum];
    } else {
      fs := WriteJonswap(w, fs0);
    }
    if w.hasTime {
      fs := WriteFilelist(w, fs);
    } else if w.hasLocation {
      fs := WriteLoclist(w, fs);
    }
  }

  /** The names `write` produces: the spectrum or JONSWAP files, then the index files the flags call for. */
  function WrittenNames(w: WaveSource): set<string>
  {
    SpectraNames(w) +
    (if w.hasTime then {FilelistFile} + (if w.hasLocation && |w.times| > 0 then {LoclistFile} else {})
     else if w.hasLocation then {LoclistFile} else {})
  }

  /**
   * `write` adds exactly the names the dimension flags call for and leaves
   * every other file as it was.
   */
  lemma WavesFilesKeys(w: WaveSource, fs: FileSystem)
    ensures WavesFiles(w, fs).Keys == fs.Keys + WrittenNames(w)
    ensures forall name :: name in fs && name !in WrittenNames(w) ==> WavesFiles(w, fs)[name] == fs[name]
  {
    var spectra := SpectraFiles(w, fs);
    var made := SpectraNames(w);
    SpectraKeys(w, fs);
    var out := WavesFiles(w, fs);
    if w.hasTime {
      var index: set<string> := {FilelistFile} + (if w.hasLocation && |w.times| > 0 then {LoclistFile} else {});
      assert out == FilelistFiles(w, spectra);
      FilelistFilesKeys(w, spectra);
      ComposeWrites(fs, spectra, out, made, index);
    } else if w.hasLocation {
      assert out == LoclistFiles(w, spectra);
      LoclistFilesKeys(w, spectra);
      ComposeWrites(fs, spectra, out, made, {LoclistFile});
    } else {
      ComposeWrites(fs, spectra, out, made, {});
    }
  }

  /** Two writes in a row add the union of their names and keep every other file. */
  lemma ComposeWrites(fs: FileSystem, mid: FileSystem, out: FileSystem, first: set<string>, second: set<string>)
    requires mid.Keys == fs.Keys + first
    requires forall name :: name in fs && name !in first ==> mid[name] == fs[name]
    requires out.Keys == mid.Keys + second
    requires forall name :: name in mid && name !in second ==> out[name] == mid[name]
    ensures out.Keys == fs.Keys + (first + second)
    ensures forall name :: name in fs && name !in first + second ==> out[name] == fs[name]
  {
  }

  /** `write_filelist` adds the time index, and the location index when it writes one. */
  lemma FilelistFilesKeys(w: WaveSource, fs: FileSystem)
    ensures FilelistFiles(w, fs).Keys == fs.Keys + {FilelistFile} + (if w.hasLocation && |w.times| > 0 then {LoclistFile} else {})
    ensures forall name :: name in fs && name != FilelistFile && (w.hasLocation && |w.times| > 0 ==> name != LoclistFile) ==>
      FilelistFiles(w, fs)[name] == fs[name]
  {
  }

  /** `write_loclist` adds the location index only. */
  lemma LoclistFilesKeys(w: WaveSource, fs: FileSystem)
    ensures LoclistFiles(w, fs).Keys == fs.Keys + {LoclistFile}
    ensures forall name :: name in fs && name != LoclistFile ==> LoclistFiles(w, fs)[name] == fs[name]
  {
  }

  /**
   * A single untagged parametric record gives exactly `waves.txt`, holding
   * that record, and no index file.
   */
  lemma SingleRecordFiles(w: WaveSource, fs: FileSystem)
    requires !w.hasTime && !w.hasLocation && !w.hasFrequency && |w.energies| == 1
    ensures WavesFiles(w, fs).Keys == fs.Keys + {WavesFile}
    ensures WavesFiles(w, fs)[WavesFile] == Text(JonswapText(w.energies[0]))
  {
    JonswapKeys(w, fs, 1);
    JonswapWritten(w, fs, 1, 0);
  }

  /** The names the enumerations of the three base names start with. */
  lemma EnumeratedPrefixes(i: nat)
    ensures StartsWith(EnumerateFilename(WavesFile, i), "waves_")
    ensures StartsWith(EnumerateFilename(SpectrumFile, i), "waves_")
    ensures StartsWith(EnumerateFilename(LoclistFile, i), "loclist_")
  {
    SplitExtPlain("waves", ".txt");
    assert "waves" + ".txt" == WavesFile;
    SplitExtPlain("waves", ".SP2");
    assert "waves" + ".SP2" == SpectrumFile;
    SplitExtPlain("loclist", ".txt");
    assert "loclist" + ".txt" == LoclistFile;
    EnumerateFilenameShape(WavesFile, i);
    EnumerateFilenameShape(SpectrumFile, i);
    EnumerateFilenameShape(LoclistFile, i);
  }

  /** No enumerated name is one of the fixed names. */
  lemma EnumeratedNotFixed(i: nat)
    ensures EnumerateFilename(WavesFile, i) !in {WavesFile, FilelistFile, LoclistFile, SpectrumFile}
    ensures EnumerateFilename(SpectrumFile, i) !in {WavesFile, FilelistFile, LoclistFile, SpectrumFile}
    ensures EnumerateFilename(LoclistFile, i) !in {WavesFile, FilelistFile, LoclistFile, SpectrumFile}
  {
    EnumeratedPrefixes(i);
    NotPrefix(WavesFile, "waves_", 5);
    NotPrefix(SpectrumFile, "waves_", 5);
    NotPrefix(FilelistFile, "waves_", 0);
    NotPrefix(LoclistFile, "waves_", 0);
    NotPrefix(WavesFile, "loclist_", 0);
    NotPrefix(SpectrumFile, "loclist_", 0);
    NotPrefix(FilelistFile, "loclist_", 0);
    NotPrefix(LoclistFile, "loclist_", 7);
  }

  /** The enumerated location indexes and JONSWAP files never share a name. */
  lemma EnumeratedApart(i: nat, j: nat)
    ensures EnumerateFilename(LoclistFile, i) != EnumerateFilename(WavesFile, j)
  {
    EnumeratedPrefixes(i);
    EnumeratedPrefixes(j);
    var a, b := EnumerateFilename(LoclistFile, i), EnumerateFilename(WavesFile, j);
    assert a[0] == 'l' && b[0] == 'w';
  }

  /** A name differing from a prefix at position `k` does not start with it. */
  lemma NotPrefix(name: string, prefix: string, k: nat)
    requires k < |prefix| && k < |name| && name[k] != prefix[k]
    ensures forall s :: StartsWith(s, prefix) ==> s != name
  {
  }

  /**
   * The boundary file named in the parameters is one the component writes,
   * except for a source with no dimension flags and no slice at all.
   */
  lemma BoundaryFileWritten(w: WaveSource, fs: FileSystem)
    requires w.hasTime || w.hasLocation || w.hasFrequency || |w.energies| > 0
    ensures BoundaryFile(w) in WavesFiles(w, fs)
  {
    if !w.hasTime && !w.hasLocation && !w.hasFrequency {
      JonswapWritten(w, fs, |w.energies|, |w.energies| - 1);
    }
  }

  /**
   * For a plain time series (no locations, no spectrum), row `i` of the
   * time index names the JONSWAP file holding slice `i`, whenever there is
   * such a slice.
   */
  lemma TimeSeriesRefsWritten(w: WaveSource, fs: FileSystem, i: nat)
    requires w.hasTime && !w.hasLocation && !w.hasFrequency
    requires i < |w.times| && i < |w.energies|
    ensures FilelistRef(w, i) in WavesFiles(w, fs)
    ensures WavesFiles(w, fs)[FilelistRef(w, i)] == Text(JonswapText(w.energies[i]))
  {
    JonswapWritten(w, fs, |w.energies|, i);
    EnumeratedNotFixed(i);
  }

  /**
   * With locations, the rows refer to files this component never writes:
   * with a time dimension the time index names per-step location indexes
   * `loclist_NNN.txt`, though only `loclist.txt` is written; without one,
   * the location index names per-location JONSWAP files `waves_NNN.txt`,
   * though only `waves.txt` is written.
   */
  lemma LocationRefsUnwritten(w: WaveSource, fs: FileSystem, i: nat)
    requires w.hasLocation && !w.hasFrequency
    ensures w.hasTime && FilelistRef(w, i) !in fs ==> FilelistRef(w, i) !in WavesFiles(w, fs)
    ensures !w.hasTime && LoclistRef(w, i) !in fs ==> LoclistRef(w, i) !in WavesFiles(w, fs)
  {
    EnumeratedNotFixed(i);
    var n := |w.energies|;
    JonswapKeys(w, fs, n);
    if w.hasTime && EnumerateFilename(LoclistFile, i) in JonswapNames(w, n) {
      var j: nat :| j < n && JonswapName(w, j) == EnumerateFilename(LoclistFile, i);
      EnumeratedApart(i, j);
    }
  }
}

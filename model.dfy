/**
 * XBeachModel: an ordered collection of named components, `_params` first.
 * Writing the model writes every component's files and then one
 * `params.txt` holding the base parameters updated by every component in
 * turn.
 */
module Model {
  import opened Wrappers
  import opened Strings
  import opened OrderedDicts
  import opened Params
  import opened Files
  import opened Bathymetry
  import opened Waves

  const ParamsFile := "params.txt"
  const ParamsName := "_params"
  const ReprTitle := "XBeach Model Object:"
  const ReprHead := ReprTitle + "\n\n"

  /** Each component is a parameter record, possibly with data of its own to write. */
  datatype Component =
    | ParamsComponent(entries: Record)     // XBeachParams
    | BathymetryComponent(b: Bathymetry)   // XBeachBathymetry
    | WavesComponent(waves: Waves)         // XBeachWaves

  /** The entries a component holds as an OrderedDict. */
  function ComponentParams(c: Component): Record
  {
    match c
    case ParamsComponent(entries) => entries
    case BathymetryComponent(b) => b.params
    case WavesComponent(waves) => waves.params
  }

  /** `obj.write(fpath)` for each kind of component. */
  function ComponentFiles(c: Component, fs: FileSystem): FileSystem
  {
    match c
    case ParamsComponent(entries) => fs[ParamsFile := Text(RenderRecord(entries, 0))]
    case BathymetryComponent(b) => BathymetryFiles(b, fs)
    case WavesComponent(waves) => WavesFiles(waves.source, fs)
  }

  method WriteComponent(c: Component, fs0: FileSystem) returns (fs: FileSystem)
    ensures fs == ComponentFiles(c, fs0)
  {
    match c
    case ParamsComponent(entries) =>
      var text := PrettyPrint(entries, 0);
      fs := fs0[ParamsFile := Text(text)];
    case BathymetryComponent(b) =>
      fs := BathymetryFiles(b, fs0);
    case WavesComponent(waves) =>
      fs := WriteWaves(waves.source, fs0);
  }

  /** The parameter records of the components, in attachment order. */
  function ParamsOf(comps: Dict<Component>): (r: seq<Record>)
    ensures |r| == |comps|
  {
    seq(|comps|, i requires 0 <= i < |comps| => ComponentParams(comps[i].1))
  }

  /** The files after the first `n` components have written theirs. */
  function FilesAfter(comps: Dict<Component>, fs: FileSystem, n: nat): FileSystem
    requires n <= |comps|
  {
    if n == 0 then fs else ComponentFiles(comps[n - 1].1, FilesAfter(comps, fs, n - 1))
  }

  /**
   * The invariant of a model: the base parameters come first, every name
   * occurs once, and every component's record has unique keys.
   */
  predicate ValidComponents(comps: Dict<Component>)
  {
    && |comps| > 0
    && comps[0].0 == ParamsName
    && comps[0].1.ParamsComponent?
    && Unique(Keys(comps))
    && AllUnique(ParamsOf(comps))
  }

  /** The parameters `write` puts in `params.txt`. */
  function MergedParams(comps: Dict<Component>): Record
    requires ValidComponents(comps)
  {
    MergeAll(comps[0].1.entries, ParamsOf(comps))
  }

  // ---------------------------------------------------------------------------
  // __repr__

  /** The heading of a component: none for a name starting with `_`. */
  function Heading(name: string): seq<string>
  {
    if StartsWith(name, "_") then [] else ["  " + name + ":"]
  }

  /** The line `__repr__` writes before the entries of a component whose name is shown. */
  function HeadingLine(name: string): string
  {
    "  " + name + ":\n"
  }

  /** One iteration of `__repr__`: the heading, the entries indented by 4, a blank line. */
  function ReprSection(name: string, c: Component): string
  {
    Lines(Heading(name)) + RenderRecord(ComponentParams(c), 4) + "\n"
  }

  function ReprSections(comps: Dict<Component>, n: nat): string
    requires n <= |comps|
  {
    if n == 0 then "" else ReprSections(comps, n - 1) + ReprSection(comps[n - 1].0, comps[n - 1].1)
  }

  function ReprText(comps: Dict<Component>): string
  {
    ReprHead + ReprSections(comps, |comps|)
  }

  /** The lines of one section, as a reader of the text sees them. */
  function SectionLines(name: string, c: Component): seq<string>
  {
    Heading(name) + LineBodies(ComponentParams(c), 4) + [""]
  }

  function AllSectionLines(comps: Dict<Component>, n: nat): seq<string>
    requires n <= |comps|
  {
    if n == 0 then [] else AllSectionLines(comps, n - 1) + SectionLines(comps[n - 1].0, comps[n - 1].1)
  }

  /** Names and entries of the first `n` components that `__repr__` can print on lines of their own. */
  predicate ReprPrintable(comps: Dict<Component>, n: nat)
    requires n <= |comps|
  {
    n == 0 || (ReprPrintable(comps, n - 1) && '\n' !in comps[n - 1].0 && Printable(ComponentParams(comps[n - 1].1)))
  }

  class XBeachModel {
    var components: Dict<Component>

    predicate Valid()
      reads this
    {
      ValidComponents(components)
    }

    /** `XBeachModel(**kwargs)`: only the base parameters, built from the keywords. */
    constructor (kwargs: Record)
      ensures Valid()
      ensures components == [(ParamsName, ParamsComponent(FromPairs(kwargs)))]
    {
      var comps := [(ParamsName, ParamsComponent(FromPairs(kwargs)))];
      UpdateUnique([], kwargs);
      assert Keys(comps) == [ParamsName];
      components := comps;
    }

    /**
     * `set_bathymetry`: attaches (or replaces, in place) the `bathymetry`
     * component; when the constructor raises, the model is unchanged.
     */
    method SetBathymetry(args: seq<Shape>, kwargs: Record) returns (err: Option<BathymetryError>)
      requires Valid()
      modifies this
      ensures Valid()
      ensures match NewBathymetry(args, kwargs)
        case Ok(b) => err == None && components == Set(old(components), "bathymetry", BathymetryComponent(b))
        case Err(e) => err == Some(e) && components == old(components)
    {
      var r := NewBathymetry(args, kwargs);
      match r
      case Ok(b) =>
        NewBathymetryUnique(args, kwargs);
        Attach("bathymetry", BathymetryComponent(b));
        err := None;
      case Err(e) =>
        err := Some(e);
    }

    /** `set_waves`: attaches (or replaces, in place) the `waves` component. */
    method SetWaves(w: WaveSource)
      requires Valid()
      modifies this
      ensures Valid()
      ensures components == Set(old(components), "waves", WavesComponent(NewWaves(w)))
    {
      Attach("waves", WavesComponent(NewWaves(w)));
    }

    /** `self[name] = c` for a name other than `_params`. */
    method Attach(name: string, c: Component)
      requires Valid() && name != ParamsName && Unique(Keys(ComponentParams(c)))
      modifies this
      ensures Valid()
      ensures components == Set(old(components), name, c)
    {
      var before := components;
      components := Set(components, name, c);
      AttachValid(before, name, c);
    }

    /**
     * `write`: each component writes its files in attachment order while a
     * copy of the base parameters is updated with its entries; the merged
     * parameters then go to `params.txt`, replacing the one the base
     * component wrote.
     */
    method Write(fs0: FileSystem) returns (fs: FileSystem)
      requires Valid()
      ensures fs == FilesAfter(components, fs0, |components|)[ParamsFile := Text(RenderRecord(MergedParams(components), 0))]
    {
      var base := components[0].1.entries;
      var params := base;
      ghost var recs := ParamsOf(components);
      fs := fs0;
      var i := 0;
      while i < |components|
        invariant 0 <= i <= |components|
        invariant fs == FilesAfter(components, fs0, i)
        invariant params == MergeAll(base, recs[..i])
      {
        var c := components[i].1;
        fs := WriteComponent(c, fs);
        assert recs[..i + 1][..i] == recs[..i];
        params := Update(params, ComponentParams(c));
        i := i + 1;
      }
      assert recs[..i] == recs;
      var text := PrettyPrint(params, 0);
      fs := fs[ParamsFile := Text(text)];
    }

    /** `__repr__` */
    method Repr() returns (s: string)
      ensures s == ReprText(components)
    {
      s := ReprOf(components);
    }
  }

  /** `__repr__`: the title and a blank line, then a section per component in attachment order. */
  method ReprOf(comps: Dict<Component>) returns (s: string)
    ensures s == ReprText(comps)
  {
    s := ReprTitle + "\n\n";
    s := AppendSections(s, comps);
  }

  /** The loop of `__repr__`: each component's section is appended to `head` in turn. */
  method AppendSections(head: string, comps: Dict<Component>) returns (s: string)
    ensures s == head + ReprSections(comps, |comps|)
  {
    s := head;
    var i := 0;
    while i < |comps|
      invariant 0 <= i <= |comps|
      invariant s == head + ReprSections(comps, i)
    {
      s := AppendSection(s, comps[i].0, comps[i].1);
      ConcatAssoc(head, ReprSections(comps, i), ReprSection(comps[i].0, comps[i].1));
      i := i + 1;
    }
  }

  /** One pass of the `__repr__` loop: the heading unless the name is private, the entries, a blank line. */
  method AppendSection(s0: string, name: string, c: Component) returns (s: string)
    ensures s == s0 + ReprSection(name, c)
  {
    s := s0;
    if !StartsWith(name, "_") {
      s := s + HeadingLine(name);
    }
    var body := PrettyPrint(ComponentParams(c), 4);
    s := s + body;
    s := s + "\n";
    SectionStep(s0, name, c, s);
  }

  /** The text one pass appends is the component's section. */
  lemma SectionStep(s0: string, name: string, c: Component, s: string)
    requires s == (if StartsWith(name, "_") then s0 else s0 + HeadingLine(name))
                  + RenderRecord(ComponentParams(c), 4) + "\n"
    ensures s == s0 + ReprSection(name, c)
  {
    var heading := if StartsWith(name, "_") then "" else HeadingLine(name);
    var body := RenderRecord(ComponentParams(c), 4);
    HeadingText(name);
    assert heading + body + "\n" == ReprSection(name, c);
    if StartsWith(name, "_") {
      assert s0 + heading == s0;
    }
    ConcatAssoc(s0, heading, body);
    ConcatAssoc(s0, heading + body, "\n");
  }

  lemma HeadingText(name: string)
    ensures Lines(Heading(name)) == if StartsWith(name, "_") then "" else HeadingLine(name)
  {
    if !StartsWith(name, "_") {
      assert Lines(["  " + name + ":"]) == "  " + name + ":" + "\n" + Lines([]);
    }
  }

  /** Attaching a component under a new or existing name other than `_params` keeps the invariant. */
  lemma AttachValid(comps: Dict<Component>, name: string, c: Component)
    requires ValidComponents(comps) && name != ParamsName && Unique(Keys(ComponentParams(c)))
    ensures ValidComponents(Set(comps, name, c))
  {
    var after := Set(comps, name, c);
    SetUnique(comps, name, c);
    assert after[0] == comps[0];
    forall j | 0 <= j < |after| ensures Unique(Keys(ParamsOf(after)[j])) {
      SetEntry(comps, name, c, j);
      assert ParamsOf(after)[j] == ComponentParams(after[j].1);
      if after[j] != (name, c) {
        assert ParamsOf(comps)[j] == ComponentParams(comps[j].1);
      }
    }
  }

  /** An entry after assignment is the assigned one or the entry that was there. */
  lemma {:induction false} SetEntry<V>(d: Dict<V>, k: string, v: V, j: nat)
    requires j < |Set(d, k, v)|
    ensures Set(d, k, v)[j] == (k, v) || (j < |d| && Set(d, k, v)[j] == d[j])
  {
    if |d| > 0 && d[0].0 != k && j > 0 {
      SetEntry(d[1..], k, v, j - 1);
    }
  }

  // ---------------------------------------------------------------------------
  // What the written parameters and the printed model mean

  /** Re-applying `_params` as the first update changes nothing: the merge is that of the other components. */
  lemma MergedSkipsBase(comps: Dict<Component>)
    requires ValidComponents(comps)
    ensures MergedParams(comps) == MergeAll(comps[0].1.entries, ParamsOf(comps[1..]))
  {
    var base := comps[0].1.entries;
    assert ParamsOf(comps) == [base] + ParamsOf(comps[1..]);
    assert Unique(Keys(ParamsOf(comps)[0]));
    MergeBaseFirst(base, ParamsOf(comps[1..]));
  }

  /**
   * In the written `params.txt`, a key takes the value of the last
   * component holding it, and a key no component other than the base holds
   * keeps its base value.
   */
  lemma MergedValue(comps: Dict<Component>, k: string, j: nat)
    requires ValidComponents(comps) && j < |comps|
    ensures k in Keys(ComponentParams(comps[j].1)) && (forall j' :: j < j' < |comps| ==> k !in Keys(ComponentParams(comps[j'].1)))
            ==> Get(MergedParams(comps), k) == Get(ComponentParams(comps[j].1), k)
  {
    var recs := ParamsOf(comps);
    if k in Keys(recs[j]) && (forall j' :: j < j' < |comps| ==> k !in Keys(ComponentParams(comps[j'].1))) {
      assert forall j' :: j < j' < |recs| ==> recs[j'] == ComponentParams(comps[j'].1);
      MergeLastWins(comps[0].1.entries, recs, j, k);
    }
  }

  /** `params.txt` reads back as the merged parameters, one line per key. */
  lemma ParamsFileReadBack(comps: Dict<Component>)
    requires ValidComponents(comps) && Printable(MergedParams(comps))
    ensures ParseRecord(RenderRecord(MergedParams(comps), 0), 0) == Some(Rendered(MergedParams(comps)))
  {
    RenderRecordRoundTrip(MergedParams(comps), 0);
  }

  /** A section is its heading, its entries, and a blank line, each on a line of its own. */
  lemma SectionAsLines(name: string, c: Component)
    ensures ReprSection(name, c) == Lines(SectionLines(name, c))
  {
    var h, bodies := Heading(name), LineBodies(ComponentParams(c), 4);
    RenderRecordLines(ComponentParams(c), 4);
    LinesConcat(h, bodies);
    LinesConcat(h + bodies, [""]);
    assert Lines([""]) == "" + "\n" + Lines([]);
  }

  lemma {:induction false} SectionsAsLines(comps: Dict<Component>, n: nat)
    requires n <= |comps|
    ensures ReprSections(comps, n) == Lines(AllSectionLines(comps, n))
  {
    if n > 0 {
      var (name, c) := comps[n - 1];
      var prev, lines := AllSectionLines(comps, n - 1), SectionLines(name, c);
      assert ReprSections(comps, n) == ReprSections(comps, n - 1) + ReprSection(name, c);
      assert AllSectionLines(comps, n) == prev + lines;
      SectionsAsLines(comps, n - 1);
      SectionAsLines(name, c);
      LinesConcat(prev, lines);
    }
  }

  lemma {:induction false} SectionLinesOneLine(comps: Dict<Component>, n: nat)
    requires n <= |comps| && ReprPrintable(comps, n)
    ensures forall i :: 0 <= i < |AllSectionLines(comps, n)| ==> '\n' !in AllSectionLines(comps, n)[i]
  {
    if n > 0 {
      SectionLinesOneLine(comps, n - 1);
      var (name, c) := comps[n - 1];
      LineBodiesOneLine(ComponentParams(c), 4);
      if !StartsWith(name, "_") {
        var h := "  " + name + ":";
        forall j | 0 <= j < |h| ensures h[j] != '\n' {
          if 2 <= j < 2 + |name| {
            assert h[j] == name[j - 2];
          }
        }
      }
    }
  }

  lemma TitleOneLine()
    ensures '\n' !in ReprTitle
  {
  }

  /**
   * The printed model reads back as the title, a blank line, and then for
   * each component in order: `  name:` unless the name starts with `_`,
   * its entries indented by 4, and a blank line.
   */
  lemma ReprReadBack(comps: Dict<Component>)
    requires ReprPrintable(comps, |comps|)
    ensures Split(ReprText(comps), '\n') == [ReprTitle, ""] + AllSectionLines(comps, |comps|) + [""]
  {
    var all := AllSectionLines(comps, |comps|);
    ReprAsLines(comps);
    SectionLinesOneLine(comps, |comps|);
    TitledOneLine(all);
    SplitLines([ReprTitle, ""] + all);
  }

  lemma TitledOneLine(all: seq<string>)
    requires forall i :: 0 <= i < |all| ==> '\n' !in all[i]
    ensures forall i :: 0 <= i < |[ReprTitle, ""] + all| ==> '\n' !in ([ReprTitle, ""] + all)[i]
  {
    TitleOneLine();
    forall i | 2 <= i < 2 + |all| ensures '\n' !in ([ReprTitle, ""] + all)[i] {
      assert ([ReprTitle, ""] + all)[i] == all[i - 2];
    }
  }

  lemma ReprAsLines(comps: Dict<Component>)
    ensures ReprText(comps) == Lines([ReprTitle, ""] + AllSectionLines(comps, |comps|))
  {
    var all := AllSectionLines(comps, |comps|);
    SectionsAsLines(comps, |comps|);
    LinesConcat([ReprTitle, ""], all);
    TitleLines();
  }

  lemma TitleLines()
    ensures Lines([ReprTitle, ""]) == ReprHead
  {
    var ls := [ReprTitle, ""];
    assert ls[1..] == [""] && [""][1..] == [];
    assert Lines([""]) == "\n";
  }

}

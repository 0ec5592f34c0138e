# XBeach input deck writer, modelled in Dafny

`xbeachtools/xbeach.py` builds the text input deck of the XBeach coastal
model. An `XBeachModel` is an ordered dictionary of named components:
`_params` always comes first; a bathymetry and a wave boundary condition can
be attached after it. Every component is itself an ordered dictionary of
parameters (`XBeachParams`) and writes its own files. `write` then writes
one `params.txt` holding the base parameters updated with every component's
parameters, in attachment order.

This project models that core:

- `strings.dfy` (module `Strings`) holds the Python string operations the
  writer relies on, each with its partner. These are `' '.join` and
  `str.split`, `'%-10s'`, `'%d'` and `'%03d'`, and POSIX
  `os.path.splitext`.
- `ordered_dicts.dfy` (module `OrderedDicts`) models `OrderedDict` with
  string keys as a sequence of entries. It covers item assignment, `update`,
  construction from keywords, and the fold of updates done by
  `XBeachModel.write`.
- `params.dfy` (module `Params`) holds the parameter value kinds.
  - It renders values as `pretty_print_value` does and records as
    `pretty_print` does; `PrettyPrint` is a method with the source's loop.
  - A parser for the `key = value` lines is the partner the round trip is
    proved against.
  - It also holds `enumerate_filename`.
- `bathymetry.dfy` (module `Bathymetry`) covers the `XBeachBathymetry`
  constructor. The grids are reduced to their shapes. It also covers the
  files `write` produces.
- `waves.dfy` (module `Waves`) covers `XBeachWaves`.
  - The constructor chooses `bcfile` and `instat`.
  - `write` dispatches to the writers.
  - `write_jonswap`, `write_filelist` and `write_loclist` are methods with
    the source's loops.
  - Lemmas state what the written index files contain and which files
    their rows refer to.
- `model.dfy` (module `Model`) holds the class `XBeachModel`. It has a
  `components` field, the `set_*` methods, the merge loop of `write`, and
  `__repr__`.
- `files.dfy` (module `Files`) models the output directory as a map from
  file name to content. A later write of the same name replaces the earlier
  one.
- `wrappers.dfy` (module `Wrappers`) holds `Option` and `Result`.

The external `OceanWaves` object is seen only through three dimension flags
(time, location, frequency). It also hands over the numbers the writers
format, already rendered as text: each time, each location's x and y, and
the wave height of each time slice. A float parameter is likewise carried
as its `'%0.4f'` text. `to_swan` leaves an opaque `Spectrum` file.

Behaviour of the code that the model keeps, though a reader might expect
otherwise:

- The JONSWAP files get enumerated names exactly when there is a time
  dimension, even for a single time step. Without one, every slice is
  written to `waves.txt`, so the last slice wins.
- A wrong argument count raises Python's `ValueError` (`ArgumentCount`). A
  full grid whose y array has no axis, or whose x array has fewer than two
  axes, raises `IndexError` (`IndexOutOfRange`).
- Rows of the index files that involve locations refer to files the
  component never writes. With a time dimension, the time index names
  `loclist_NNN.txt` for each step, but only `loclist.txt` is written, once
  per step with the same text. Without one, the location index names
  `waves_NNN.txt` for each location, but only `waves.txt` is written. This
  is stated as `Waves.LocationRefsUnwritten`.
- The second column of every time index row is the fixed reference time
  `rt = 1.`.
- A parameter value that is itself a dictionary has no branch of its own in
  `pretty_print_value`. It is rendered by `str(v)` like any other object.

## Model

| member | source | states |
|---|---|---|
| Strings.PadRight | xbeachtools/xbeach.py:55 | `'%-10s'` left-justifies the key in a field of at least 10 characters, keeps the whole key and fills with spaces only |
| Strings.SplitJoin | xbeachtools/xbeach.py:84 | splitting a `' '.join` of space-free tokens at spaces gives the tokens back |
| Strings.JoinAppend | xbeachtools/xbeach.py:84 | joining two non-empty lists puts exactly one separator between the two halves |
| Strings.IntToStringRoundTrip | xbeachtools/xbeach.py:87-88 | `'%d'` writes an optional minus and decimal digits, no leading zero, and reads back as the same integer |
| Strings.ZeroPadValue | xbeachtools/xbeach.py:100 | `'%0<w>d'` gives at least `w` digits, exactly `w` when the index has fewer, and they denote the index |
| Strings.ZeroPadThree | xbeachtools/xbeach.py:100 | below 1000, `'%03d'` gives exactly three digits that denote the index |
| Strings.SplitExtPlain | xbeachtools/xbeach.py:99 | `os.path.splitext` of a name with one dotted extension and no directory splits at that dot |
| Strings.SplitExt | xbeachtools/xbeach.py:99 | stem and extension concatenate to the name, and a non-empty extension starts with `.` |
| OrderedDicts.Set | xbeachtools/xbeach.py:27 | `d[k] = v`: `k` then maps to `v`, every other lookup is unchanged, an existing key keeps its position and a new key is appended |
| OrderedDicts.UpdateGet | xbeachtools/xbeach.py:44 | after `d.update(o)`, a key of `o` has `o`'s value and every other key keeps `d`'s |
| OrderedDicts.UpdateKeys | xbeachtools/xbeach.py:44 | after `d.update(o)`, the keys are `d`'s keys in place, then the keys of `o` not in `d`, in `o`'s order |
| OrderedDicts.UpdateUnique | xbeachtools/xbeach.py:44 | `update` keeps every key unique |
| OrderedDicts.UpdateSelf | xbeachtools/xbeach.py:41-44 | updating a dictionary with itself changes nothing |
| OrderedDicts.FromPairsKeys | xbeachtools/xbeach.py:118 | `OrderedDict(**kwargs)` holds the keywords in the order given, with their values |
| OrderedDicts.MergeLastWins | xbeachtools/xbeach.py:41-45 | in the merged parameters, a key takes its value from the last component that holds it |
| OrderedDicts.MergeUntouched | xbeachtools/xbeach.py:41-45 | a key no component holds keeps the base value, or stays absent |
| OrderedDicts.MergeKeepsPositions | xbeachtools/xbeach.py:41-45 | the keys after each merge step are a prefix of the final keys: a key, once placed, keeps its position |
| OrderedDicts.MergeKeySet | xbeachtools/xbeach.py:41-45 | the merged keys are exactly the base keys and the keys of the components |
| OrderedDicts.MergeUnique | xbeachtools/xbeach.py:41-45 | the merged parameters hold every key once |
| OrderedDicts.MergeBaseFirst | xbeachtools/xbeach.py:41-45 | re-applying the base as the first update changes nothing |
| Params.RenderScalars | xbeachtools/xbeach.py:85-92 | an int renders as `'%d'` and reads back as itself, a str verbatim, a bool as `1`/`0` (never through the int branch), an empty list as the empty text |
| Params.RenderSingleton | xbeachtools/xbeach.py:83-84 | a one-element list renders as its element |
| Params.RenderFlattens | xbeachtools/xbeach.py:83-84 | with no empty list inside, a value renders as its leaves, at any depth, joined by single spaces |
| Params.RenderItemsFlatten | xbeachtools/xbeach.py:83-84 | a non-empty list of such values renders as all their leaves joined by single spaces |
| Params.RenderTokens | xbeachtools/xbeach.py:83-84 | when no list is empty and no leaf holds a space, splitting the rendering at spaces gives back the leaves |
| Params.RenderRecordAppend | xbeachtools/xbeach.py:75-79 | the text of a record with one more entry is the old text followed by that entry's line |
| Params.PrettyPrint | xbeachtools/xbeach.py:75-79 | the loop of `pretty_print` returns the text of one line per entry in insertion order |
| Params.KeyBeforeSpace | xbeachtools/xbeach.py:55 | in a written line, the key is everything before the first space |
| Params.AfterKey | xbeachtools/xbeach.py:55 | after the key come only padding spaces, then `= ` and the value |
| Params.LineRoundTrip | xbeachtools/xbeach.py:78 | each line reads back as its key and rendered value, for a key without spaces |
| Params.RenderRecordRoundTrip | xbeachtools/xbeach.py:75-79 | `pretty_print` text splits into one line per entry plus the final empty piece, and reads back as the keys and rendered values in insertion order |
| Params.RecordLines | xbeachtools/xbeach.py:75-79 | the text splits into the entries' line bodies, which parse back entry by entry |
| Params.RenderRecordLines | xbeachtools/xbeach.py:75-79 | the text is the line bodies, each followed by a line break |
| Params.LineBodiesOneLine | xbeachtools/xbeach.py:78 | for printable entries, no line body holds a line break |
| Params.EnumerateFilenameShape | xbeachtools/xbeach.py:97-100 | the enumerated name is the stem, `_`, at least three digits denoting the index, then the extension |
| Params.EnumerateFilenameInjective | xbeachtools/xbeach.py:97-100 | different indices give different names, for every index |
| Params.EnumerateFilenameChars | xbeachtools/xbeach.py:97-100 | the enumerated name adds only `_` and digits to the characters of the name |
| Params.EnumerateWavesExample | xbeachtools/xbeach.py:97-100 | `waves.txt` with index 1 becomes `waves_001.txt` |
| Bathymetry.Derived | xbeachtools/xbeach.py:125-141 | the constructor assigns `ny` (and `yfile` for a full grid), then `nx`, `xfile` and `depfile`, each once |
| Bathymetry.DerivedValues | xbeachtools/xbeach.py:125-141 | the values assigned: `nx`, `ny`, `x.txt`, `z.txt`, and `y.txt` only for a full grid |
| Bathymetry.DerivedOf | xbeachtools/xbeach.py:120-141 | the derived keys for accepted arguments, in assignment order |
| Bathymetry.NewBathymetry | xbeachtools/xbeach.py:117-141 | `ValueError` exactly for a count other than 2 or 3; `IndexError` exactly for a full grid with y lacking an axis or x lacking two; two arrays are reshaped to one row each with no y; three are kept; the parameters are the keywords updated with the derived entries |
| Bathymetry.UpdateDerived | xbeachtools/xbeach.py:125-141 | over any keywords, the derived values win and every other keyword keeps its value |
| Bathymetry.NewBathymetryParams | xbeachtools/xbeach.py:117-141 | `nx` is the column count of x less one (for two arrays, the element count of x less one); `ny` is 0 or the row count of y less one; `xfile`/`depfile` are `x.txt`/`z.txt`; `yfile` is `y.txt` for a full grid; other keywords are kept |
| Bathymetry.NewBathymetryKeys | xbeachtools/xbeach.py:117-141 | the keywords keep their places at the front; when none is a derived key, the derived keys follow in assignment order |
| Bathymetry.NewBathymetryUnique | xbeachtools/xbeach.py:117-141 | the constructed parameters hold every key once |
| Bathymetry.BathymetryFiles | xbeachtools/xbeach.py:144-149 | `write` adds the x and depth tables, and the y table only for a full grid, leaving every other file as it was |
| Waves.NewWaves | xbeachtools/xbeach.py:163-182 | the parameters are exactly `bcfile` then `instat`, with the chosen values |
| Waves.BoundaryFilePriority | xbeachtools/xbeach.py:169-176 | `bcfile` is the time index iff there is a time dimension; else the location index iff there are locations; else the spectrum iff there are frequencies; else `waves.txt` |
| Waves.InstatChoice | xbeachtools/xbeach.py:178-181 | `instat` is `swan` iff there is a frequency dimension, `jons` otherwise |
| Waves.WriteWaves | xbeachtools/xbeach.py:185-195 | `write` leaves the spectrum or the JONSWAP files, then the time index if there is a time dimension, else the location index if there are locations |
| Waves.SpectraKeys | xbeachtools/xbeach.py:187-190 | the first half of `write` adds exactly `waves.SP2`, or exactly the JONSWAP file names, and leaves every other file as it was |
| Waves.FilelistFilesKeys | xbeachtools/xbeach.py:213-224 | `write_filelist` adds `filelist.txt`, and `loclist.txt` only when there are locations and at least one time step, leaving every other file as it was |
| Waves.LoclistFilesKeys | xbeachtools/xbeach.py:227-237 | `write_loclist` adds `loclist.txt` only, leaving every other file as it was |
| Waves.LoclistRewrite | xbeachtools/xbeach.py:219 | writing the location index again at each time step leaves the same files as writing it once |
| Waves.WavesFilesKeys | xbeachtools/xbeach.py:185-195 | `write` adds exactly the spectrum or JONSWAP files, plus `filelist.txt` (and `loclist.txt` with locations and a time step) for a time dimension, or else `loclist.txt` for locations, and leaves every other file as it was |
| Waves.SingleRecordFiles | xbeachtools/xbeach.py:185-210 | a single untagged parametric record gives exactly `waves.txt`, holding that record, and no index file |
| Waves.BoundaryFileWritten | xbeachtools/xbeach.py:169-195 | the file named by `bcfile` is among the written files, unless there is no dimension flag and no slice |
| Waves.WriteJonswap | xbeachtools/xbeach.py:198-210 | the loop writes one file per slice, in slice order, each replacing any file of its name |
| Waves.JonswapFileLines | xbeachtools/xbeach.py:205-210 | a JONSWAP file is six lines: the slice's `Hm0`, then `Tp`, `mainang`, `gammajsp = 3.3`, `s = 10.` and `fnyq = 0.3` |
| Waves.JonswapWritten | xbeachtools/xbeach.py:198-204 | a slice's text is in its file after the loop when no later slice has the same name: always with a time dimension, only for the last slice without one |
| Waves.JonswapKeys | xbeachtools/xbeach.py:198-204 | the loop adds exactly the slices' file names and leaves every other file as it was |
| Waves.WriteLoclist | xbeachtools/xbeach.py:227-237 | the loop writes the `LOCLIST` header and one row per location, in order |
| Waves.LoclistRowRef | xbeachtools/xbeach.py:231-237 | a location row is one line whose last field is the enumerated spectrum or JONSWAP name of that location |
| Waves.LoclistStructure | xbeachtools/xbeach.py:227-237 | `loclist.txt` reads back as the header, one row per location in order, and nothing after |
| Waves.WriteFilelist | xbeachtools/xbeach.py:213-224 | the loop writes the `FILELIST` header and one row per time step; with locations it also (re)writes the location index |
| Waves.FilelistRowRef | xbeachtools/xbeach.py:217-224 | a time row is one line whose last field is the enumerated location index, spectrum or JONSWAP name of that step |
| Waves.FilelistStructure | xbeachtools/xbeach.py:213-224 | `filelist.txt` reads back as the header, one row per time step in order, and nothing after |
| Waves.RefsDistinct | xbeachtools/xbeach.py:213-237 | different rows of either index refer to different files |
| Waves.EnumeratedPrefixes | xbeachtools/xbeach.py:156-159 | enumerated JONSWAP and spectrum names start with `waves_`, enumerated location indexes with `loclist_` |
| Waves.EnumeratedNotFixed | xbeachtools/xbeach.py:156-159 | no enumerated JONSWAP, spectrum or location-index name is one of the four fixed file names |
| Waves.EnumeratedApart | xbeachtools/xbeach.py:156-159 | an enumerated location index never has the name of an enumerated JONSWAP file |
| Waves.TimeSeriesRefsWritten | xbeachtools/xbeach.py:198-224 | for a plain time series, row `i` of the time index names the file holding slice `i` |
| Waves.LocationRefsUnwritten | xbeachtools/xbeach.py:198-237 | with locations and no spectrum, a file a row refers to is absent after `write` unless it was there before: the component never writes it |
| Model.XBeachModel.constructor | xbeachtools/xbeach.py:11-13 | a new model holds only `_params`, built from the keywords |
| Model.XBeachModel.SetBathymetry | xbeachtools/xbeach.py:26-27 | the constructed bathymetry is assigned under `bathymetry`; on a constructor error the model is unchanged and the error is returned |
| Model.XBeachModel.SetWaves | xbeachtools/xbeach.py:30-31 | the constructed waves component is assigned under `waves` |
| Model.XBeachModel.Attach | xbeachtools/xbeach.py:27 | `self[name] = c` keeps the model invariant |
| Model.AttachValid | xbeachtools/xbeach.py:26-31 | assigning a component under any name other than `_params` keeps `_params` first, names unique and every record's keys unique |
| Model.WriteComponent | xbeachtools/xbeach.py:43 | `obj.write` for each kind of component: `params.txt`, the grid tables or the wave files |
| Model.XBeachModel.Write | xbeachtools/xbeach.py:38-45 | the loop leaves every component's files, in attachment order, then `params.txt` with the base merged with every component |
| Model.MergedSkipsBase | xbeachtools/xbeach.py:41-44 | the merge equals the base updated with the components after `_params` |
| Model.MergedValue | xbeachtools/xbeach.py:41-45 | a key takes the value of the last component holding it |
| Model.ParamsFileReadBack | xbeachtools/xbeach.py:45 | the written `params.txt` reads back as the merged keys and rendered values, in order |
| Model.XBeachModel.Repr | xbeachtools/xbeach.py:16-23 | `__repr__` returns the title, a blank line and the sections of the components in order |
| Model.ReprOf | xbeachtools/xbeach.py:16-23 | the text starts with `XBeach Model Object:` and a blank line, followed by the sections |
| Model.AppendSections | xbeachtools/xbeach.py:18-22 | the loop appends one section per component, in attachment order |
| Model.AppendSection | xbeachtools/xbeach.py:19-22 | one pass appends `  name:` unless the name starts with `_`, then the entries indented by 4, then a blank line |
| Model.HeadingText | xbeachtools/xbeach.py:19-20 | the heading is omitted exactly for names starting with `_` |
| Model.SectionsAsLines | xbeachtools/xbeach.py:18-22 | the sections are their heading, entry and blank lines, each followed by a line break |
| Model.ReprReadBack | xbeachtools/xbeach.py:16-23 | the printed model splits into the title, a blank line, then per component its heading (unless private), its entries indented by 4 and a blank line |

## Left out

- File system effects are not modelled as I/O. These are `os.makedirs`, opening and writing files, and `np.savetxt`. Each write is an update of a map from file name to content; a later write of a name replaces the earlier one.
- The numeric contents of the grids and `np.savetxt`'s format are left out. A table is recorded by its shape only.
- Float formatting (`'%0.4f'`, `'%10.4f'`, `'%0.6f'`) is left out. Float parameters, times, location coordinates and wave heights arrive as their rendered text. `Waves.OneLine` and `Params.Printable` assume only that these texts hold no line break.
- The `OceanWaves` library is left out: its constructor, `has_dimension`, `iterdim`, item access and `to_swan`. It is reduced to three flags and the rendered values above. The number of times, of locations and of `iterdim('_time')` slices are independent inputs, since the library is not part of this model. `to_swan` leaves an opaque `Spectrum` file.
- The empty stubs are left out, as they have no behaviour: `read`, `run`, `XBeachWaterlevel`, `XBeachVegetation` and `XBeachShips`.
- `XBeachParams.__repr__` (xbeachtools/xbeach.py:60-63) is not modelled. It is the description line followed by `pretty_print(indent=2)`, which `Params.PrettyPrint` covers.
- The message text of the `ValueError` raised for a wrong argument count is not modelled. Only the count is kept.
- A failing `write` of one component is not modelled. Such a failure would stop `XBeachModel.write` part-way.
- Bathymetry.BathymetryFiles: writes to the fixed names `x.txt`, `z.txt` and `y.txt` rather than looking up `xfile`, `depfile` and `yfile` in the parameters. `Bathymetry.NewBathymetryParams` proves the parameters hold exactly those names after construction. A later reassignment of those keys by the caller is not modelled.
- Strings.SplitExt: its contract states only that stem and extension make up the name and that a non-empty extension starts with `.`. The exact split point is fixed by its definition and stated for plain names by `Strings.SplitExtPlain`.
- Waves.BoundaryFileWritten: excludes a source with no dimension flag and no slice at all. There `write_jonswap` writes nothing, so `waves.txt` is named but not written.
- OrderedDicts.FromPairsKeys: assumes the order-preserving keyword arguments of Python 3.6 and later. Before 3.6, `**kwargs` reaches `OrderedDict` in an arbitrary order, and only the values per key would hold.

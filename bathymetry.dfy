/**
 * XBeachBathymetry: the grid arrays, reduced to their shapes, and the
 * parameters the constructor derives from them (`nx`, `ny`, `xfile`,
 * `yfile`, `depfile`).
 */
module Bathymetry {
  import opened Wrappers
  import opened OrderedDicts
  import opened Params
  import opened Files

  /** A numpy array shape: the length along each axis. */
  type Shape = seq<nat>

  const XFile := "x.txt"
  const YFile := "y.txt"
  const ZFile := "z.txt"

  datatype Bathymetry = Bathymetry(x: Shape, y: Option<Shape>, z: Shape, params: Record)

  /** `ValueError` for a wrong argument count, `IndexError` for an array with too few axes. */
  datatype BathymetryError = ArgumentCount(count: nat) | IndexOutOfRange

  /** The number of elements of an array of this shape. */
  function Size(s: Shape): nat
  {
    if |s| == 0 then 1 else s[0] * Size(s[1..])
  }

  /** `reshape((1, -1))`: one row holding every element. */
  function AsRow(s: Shape): Shape
  {
    [1, Size(s)]
  }

  /** The keys the constructor assigns, in assignment order. */
  function DerivedKeys(fullGrid: bool): seq<string>
  {
    if fullGrid then ["ny", "yfile", "nx", "xfile", "depfile"]
    else ["ny", "nx", "xfile", "depfile"]
  }

  /**
   * The assignments the constructor makes after the keyword parameters, in
   * its order: `ny` (and `yfile` for a full grid), then `nx`, `xfile` and
   * `depfile`.
   */
  function Derived(nx: int, ny: int, fullGrid: bool): (r: Record)
    ensures Keys(r) == DerivedKeys(fullGrid) && Unique(Keys(r))
  {
    DerivedKeysDistinct();
    var ys: Record := if fullGrid then [("ny", VInt(ny)), ("yfile", VStr(YFile))] else [("ny", VInt(ny))];
    ys + [("nx", VInt(nx)), ("xfile", VStr(XFile)), ("depfile", VStr(ZFile))]
  }

  /** The values the constructor assigns. */
  lemma DerivedValues(nx: int, ny: int, fullGrid: bool)
    ensures var r := Derived(nx, ny, fullGrid);
      && Get(r, "nx") == Some(VInt(nx)) && Get(r, "ny") == Some(VInt(ny))
      && Get(r, "yfile") == (if fullGrid then Some(VStr(YFile)) else None)
      && Get(r, "xfile") == Some(VStr(XFile)) && Get(r, "depfile") == Some(VStr(ZFile))
  {
    var r := Derived(nx, ny, fullGrid);
    var o := if fullGrid then 1 else 0;
    GetEntry(r, 0);
    GetEntry(r, o + 1);
    GetEntry(r, o + 2);
    GetEntry(r, o + 3);
    if fullGrid {
      GetEntry(r, 1);
    }
  }

  lemma DerivedKeysDistinct()
    ensures "ny" != "nx" && "ny" != "yfile" && "ny" != "xfile" && "ny" != "depfile"
    ensures "yfile" != "nx" && "yfile" != "xfile" && "yfile" != "depfile"
    ensures "nx" != "xfile" && "nx" != "depfile" && "xfile" != "depfile"
  {
    assert "ny"[1] != "nx"[1];
    assert "xfile"[0] != "yfile"[0];
  }

  /** The arguments are a cross-section, or a full grid whose x and y arrays have enough axes. */
  predicate Accepted(args: seq<Shape>)
  {
    |args| == 2 || (|args| == 3 && |args[1]| > 0 && |args[0]| >= 2)
  }

  /**
   * What the constructor assigns for accepted arguments: `nx` is one less
   * than the number of columns of x (all its elements once reshaped to one
   * row for a cross-section), `ny` one less than the number of rows of y
   * (zero for a cross-section).
   */
  function DerivedOf(args: seq<Shape>): (r: Record)
    requires Accepted(args)
    ensures Keys(r) == DerivedKeys(|args| == 3) && Unique(Keys(r))
  {
    if |args| == 2 then Derived(Size(args[0]) as int - 1, 0, false)
    else Derived(args[0][1] as int - 1, args[1][0] as int - 1, true)
  }

  /**
   * `XBeachBathymetry(*args, **kwargs)`: two arrays are a cross-section
   * (both reshaped to one row, `ny = 0`), three are a full grid
   * (`ny = rows(y) - 1`, `yfile` set); any other count raises, and so does
   * an array with too few axes. Either way `nx = cols(x) - 1` and the x and
   * depth file names are assigned after the keyword parameters.
   */
  function NewBathymetry(args: seq<Shape>, kwargs: Record): (r: Result<Bathymetry, BathymetryError>)
    ensures |args| != 2 && |args| != 3 <==> r == Err(ArgumentCount(|args|))
    ensures r == Err(IndexOutOfRange) <==> |args| == 3 && (|args[1]| == 0 || |args[0]| < 2)
    ensures r.Ok? <==> Accepted(args)
    ensures |args| == 2 ==>
      r.Ok? && r.value.x == AsRow(args[0]) && r.value.z == AsRow(args[1]) && r.value.y == None
    ensures |args| == 3 && r.Ok? ==>
      r.value.x == args[0] && r.value.y == Some(args[1]) && r.value.z == args[2]
    ensures r.Ok? ==> r.value.params == Update(FromPairs(kwargs), DerivedOf(args))
  {
    var base := FromPairs(kwargs);
    if |args| == 2 then
      Ok(Bathymetry(AsRow(args[0]), None, AsRow(args[1]), Update(base, DerivedOf(args))))
    else if |args| == 3 then
      var (x, y, z) := (args[0], args[1], args[2]);
      if |y| == 0 || |x| < 2 then Err(IndexOutOfRange)
      else Ok(Bathymetry(x, Some(y), z, Update(base, DerivedOf(args))))
    else
      Err(ArgumentCount(|args|))
  }

  /**
   * The derived values: `nx` is one less than the number of columns of x
   * (all elements of x for a cross-section), `ny` one less than the number
   * of rows of y (zero for a cross-section), the file names are the fixed
   * ones, and every other keyword parameter keeps its value.
   */
  lemma NewBathymetryParams(args: seq<Shape>, kwargs: Record, k: string)
    requires NewBathymetry(args, kwargs).Ok?
    ensures var p := NewBathymetry(args, kwargs).value.params;
      && Get(p, "nx") == Some(VInt(if |args| == 2 then Size(args[0]) as int - 1 else args[0][1] as int - 1))
      && Get(p, "ny") == Some(VInt(if |args| == 2 then 0 else args[1][0] as int - 1))
      && Get(p, "xfile") == Some(VStr(XFile))
      && Get(p, "depfile") == Some(VStr(ZFile))
      && Get(p, "yfile") == (if |args| == 3 then Some(VStr(YFile)) else Get(FromPairs(kwargs), "yfile"))
      && (k !in DerivedKeys(|args| == 3) ==> Get(p, k) == Get(FromPairs(kwargs), k))
  {
    UpdateDerived(args, FromPairs(kwargs), k);
  }

  /** The derived assignments applied over a dictionary of keyword parameters. */
  lemma UpdateDerived(args: seq<Shape>, base: Record, k: string)
    requires Accepted(args)
    ensures var p := Update(base, DerivedOf(args));
      && Get(p, "nx") == Some(VInt(if |args| == 2 then Size(args[0]) as int - 1 else args[0][1] as int - 1))
      && Get(p, "ny") == Some(VInt(if |args| == 2 then 0 else args[1][0] as int - 1))
      && Get(p, "xfile") == Some(VStr(XFile))
      && Get(p, "depfile") == Some(VStr(ZFile))
      && Get(p, "yfile") == (if |args| == 3 then Some(VStr(YFile)) else Get(base, "yfile"))
      && (k !in DerivedKeys(|args| == 3) ==> Get(p, k) == Get(base, k))
  {
    var d := DerivedOf(args);
    if |args| == 2 {
      DerivedValues(Size(args[0]) as int - 1, 0, false);
    } else {
      DerivedValues(args[0][1] as int - 1, args[1][0] as int - 1, true);
    }
    UpdateGet(base, d, "nx");
    UpdateGet(base, d, "ny");
    UpdateGet(base, d, "xfile");
    UpdateGet(base, d, "depfile");
    UpdateGet(base, d, "yfile");
    UpdateGet(base, d, k);
  }

  /**
   * The keyword parameters keep their places at the front; when none of
   * them is a derived key, the derived keys follow in assignment order.
   */
  lemma NewBathymetryKeys(args: seq<Shape>, kwargs: Record)
    requires NewBathymetry(args, kwargs).Ok?
    ensures var b := NewBathymetry(args, kwargs).value;
      |FromPairs(kwargs)| <= |b.params| &&
      Keys(b.params)[..|FromPairs(kwargs)|] == Keys(FromPairs(kwargs))
    ensures (forall k :: k in DerivedKeys(|args| == 3) ==> k !in Keys(FromPairs(kwargs))) ==>
      Keys(NewBathymetry(args, kwargs).value.params) == Keys(FromPairs(kwargs)) + DerivedKeys(|args| == 3)
  {
    var base, d := FromPairs(kwargs), DerivedOf(args);
    UpdateKeys(base, d);
    if forall k :: k in DerivedKeys(|args| == 3) ==> k !in Keys(base) {
      FreshDisjoint(Keys(d), Keys(base));
    }
  }

  /** The derived record, like any OrderedDict, holds each key once. */
  lemma NewBathymetryUnique(args: seq<Shape>, kwargs: Record)
    requires NewBathymetry(args, kwargs).Ok?
    ensures Unique(Keys(NewBathymetry(args, kwargs).value.params))
  {
    UpdateUnique([], kwargs);
    UpdateUnique(FromPairs(kwargs), DerivedOf(args));
  }

  /** `XBeachBathymetry.write`: x and depth tables always, the y table only for a full grid. */
  function BathymetryFiles(b: Bathymetry, fs: FileSystem): (out: FileSystem)
    ensures out.Keys == fs.Keys + {XFile, ZFile} + (if b.y.Some? then {YFile} else {})
    ensures out[XFile] == Table(b.x) && out[ZFile] == Table(b.z)
    ensures b.y.Some? ==> out[YFile] == Table(b.y.value)
    ensures forall name :: name in fs && name != XFile && name != ZFile && (b.y.Some? ==> name != YFile) ==> out[name] == fs[name]
  {
    var written := fs[XFile := Table(b.x)][ZFile := Table(b.z)];
    if b.y.Some? then written[YFile := Table(b.y.value)] else written
  }
}

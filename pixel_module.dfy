/** The configuration model of a pixel-detector readout module: a module holds
    readout chips (ROCs) and token bit managers (TBMs); a chip holds a grid of
    pixels and a set of named DAC registers. Geometry and DAC tables arrive
    already parsed, as constructor arguments. */
module PixelModule {
  import opened Values
  import opened ColumnMajor

  /** One cell of a chip: fixed coordinates, a trim and a mask flag. */
  class Pixel {
    const col: int
    const row: int
    var trim: int
    var mask: bool

    ghost predicate Valid()
      reads this
    {
      trim < TrimLimit
    }

    /** A pixel with the default trim, unmasked. */
    constructor (col: int, row: int)
      ensures this.col == col && this.row == row
      ensures trim == DefaultTrim && !mask
      ensures Valid()
    {
      this.col := col;
      this.row := row;
      trim := DefaultTrim;
      mask := false;
    }

    /** The trim setter: the value is checked first and stored only if it passes. */
    method SetTrim(v: Value) returns (r: Result<int>)
      modifies this`trim
      ensures r == AssignedTrim(v)
      ensures trim == (if r.Ok? then r.value else old(trim))
      ensures old(Valid()) ==> Valid()
    {
      r := AssignedTrim(v);
      if r.Ok? {
        trim := r.value;
      }
    }

    /** The mask setter always succeeds. */
    method SetMask(b: bool)
      modifies this`mask
      ensures mask == b
    {
      mask := b;
    }
  }

  /** A DAC register: fixed number, name and width, and a value below 2^bits. */
  class Dac {
    const number: int
    const name: string
    const bits: nat
    var value: int

    ghost predicate Valid()
      reads this
    {
      value < Pow2(bits)
    }

    /** A DAC holding 0. */
    constructor (number: int, name: string, bits: nat := DefaultBits)
      ensures this.number == number && this.name == name && this.bits == bits
      ensures value == 0
      ensures Valid()
    {
      this.number := number;
      this.name := name;
      this.bits := bits;
      value := 0;
    }

    /** The value setter: the value is checked first and stored only if it passes. */
    method SetValue(v: Value) returns (r: Result<int>)
      modifies this`value
      ensures r == AssignedDacValue(bits, v)
      ensures value == (if r.Ok? then r.value else old(value))
      ensures old(Valid()) ==> Valid()
    {
      r := AssignedDacValue(bits, v);
      if r.Ok? {
        value := r.value;
      }
    }
  }

  /** How a DAC is addressed: by its name or by its number. */
  datatype DacId = ByName(name: string) | ByNumber(number: int)

  /** No two DAC numbers share a name. */
  ghost predicate Injective(numberToName: map<int, string>)
  {
    forall a, b :: a in numberToName && b in numberToName && numberToName[a] == numberToName[b] ==> a == b
  }

  /** A non-empty set of DAC numbers has an element to pick. */
  lemma SomeNumber(s: set<int>)
    requires s != {}
    ensures exists x :: x in s
  {
    assert (forall x :: x !in s) ==> s == {};
  }

  // ---------------------------------------------------------------------
  // The pixel grid is a list of columns, each a list of pixels by row.

  /** Every column holds `n` pixels. */
  ghost predicate Rectangular(columns: seq<seq<Pixel>>, n: nat)
  {
    forall c :: 0 <= c < |columns| ==> |columns[c]| == n
  }

  /** The pixels of the grid column after column: the column-major walk. */
  function Flatten(columns: seq<seq<Pixel>>): (ps: seq<Pixel>)
  {
    if columns == [] then [] else Flatten(columns[..|columns| - 1]) + columns[|columns| - 1]
  }

  /** Adding a column appends its pixels to the walk. */
  lemma FlattenSnoc(columns: seq<seq<Pixel>>, c: nat)
    requires c < |columns|
    ensures Flatten(columns[..c + 1]) == Flatten(columns[..c]) + columns[c]
  {
    assert columns[..c + 1][..c] == columns[..c];
  }

  lemma {:induction false} FlattenLength(columns: seq<seq<Pixel>>, n: nat)
    requires Rectangular(columns, n)
    ensures |Flatten(columns)| == |columns| * n
  {
    if columns != [] {
      var m := |columns| - 1;
      FlattenLength(columns[..m], n);
      MulStep(m, n);
    }
  }

  /** Pixel `r` of column `c` is at position `c * n + r` of the walk. */
  lemma {:induction false} FlattenAt(columns: seq<seq<Pixel>>, n: nat, c: nat, r: nat)
    requires Rectangular(columns, n)
    requires c < |columns| && r < n
    ensures c * n + r < |Flatten(columns)| == |columns| * n
    ensures Flatten(columns)[c * n + r] == columns[c][r]
  {
    var m := |columns| - 1;
    var init := columns[..m];
    FlattenLength(columns, n);
    FlattenLength(init, n);
    if c < m {
      FlattenAt(init, n, c, r);
      MulSign(m - c, n);
      assert (m - c) * n == m * n - c * n;
    } else {
      assert c * n + r == |Flatten(init)| + r;
    }
  }

  /** Position `k` of the walk holds pixel `k % n` of column `k / n`. */
  lemma FlattenIndex(columns: seq<seq<Pixel>>, n: nat, k: int)
    requires Rectangular(columns, n)
    requires 0 <= k < |columns| * n
    ensures n > 0 && 0 <= k / n < |columns| && 0 <= k % n < n
    ensures k < |Flatten(columns)| && Flatten(columns)[k] == columns[k / n][k % n]
  {
    IndexBounds(k, n, |columns|);
    FlattenAt(columns, n, k / n, k % n);
  }

  /** True iff some pixel of `ps` is masked. */
  function AnyMasked(ps: seq<Pixel>): (m: bool)
    reads ps
    ensures m <==> exists k :: 0 <= k < |ps| && ps[k].mask
  {
    if ps == [] then false else ps[0].mask || AnyMasked(ps[1..])
  }

  /** The first step of building a chip: `cols` columns of `rows` new
      pixels each, every one in its default state. */
  method NewGrid(rows: nat, cols: nat) returns (columns: seq<seq<Pixel>>)
    ensures |columns| == cols && Rectangular(columns, rows)
    ensures forall c, r :: 0 <= c < cols && 0 <= r < rows ==>
              columns[c][r].col == c && columns[c][r].row == r
    ensures forall c, r :: 0 <= c < cols && 0 <= r < rows ==>
              fresh(columns[c][r]) && columns[c][r].trim == DefaultTrim && !columns[c][r].mask
  {
    columns := [];
    var c := 0;
    while c < cols
      invariant 0 <= c <= cols && |columns| == c
      invariant Rectangular(columns, rows)
      invariant forall i, j :: 0 <= i < c && 0 <= j < rows ==> columns[i][j].col == i && columns[i][j].row == j
      invariant forall i, j :: 0 <= i < c && 0 <= j < rows ==>
                  fresh(columns[i][j]) && columns[i][j].trim == DefaultTrim && !columns[i][j].mask
    {
      var column: seq<Pixel> := [];
      var r := 0;
      while r < rows
        invariant 0 <= r <= rows && |column| == r
        invariant forall j :: 0 <= j < r ==> column[j].col == c && column[j].row == j
        invariant forall j :: 0 <= j < r ==> fresh(column[j]) && column[j].trim == DefaultTrim && !column[j].mask
        invariant forall i, j :: 0 <= i < c && 0 <= j < rows ==>
                    columns[i][j].trim == DefaultTrim && !columns[i][j].mask
      {
        var p := new Pixel(c, r);
        column := column + [p];
        r := r + 1;
      }
      columns := columns + [column];
      c := c + 1;
    }
  }

  /** The second step: the name-to-number table. It is filled in the map's
      iteration order, which the model leaves open, so for a repeated name
      any one of its numbers may win. */
  method ReverseNames(numberToName: map<int, string>) returns (nameToNumber: map<string, int>)
    ensures forall n :: n in numberToName ==> numberToName[n] in nameToNumber
    ensures forall s :: s in nameToNumber ==>
              nameToNumber[s] in numberToName && numberToName[nameToNumber[s]] == s
  {
    nameToNumber := map[];
    var todo := numberToName.Keys;
    while todo != {}
      invariant todo <= numberToName.Keys
      invariant forall n :: n in numberToName && n !in todo ==> numberToName[n] in nameToNumber
      invariant forall s :: s in nameToNumber ==>
                  nameToNumber[s] in numberToName && numberToName[nameToNumber[s]] == s
    {
      SomeNumber(todo);
      var n :| n in todo;
      nameToNumber := nameToNumber[numberToName[n] := n];
      todo := todo - {n};
    }
  }

  /** The third step: one new DAC per configured number, holding 0. */
  method NewDacs(numberToName: map<int, string>, dacBits: map<int, nat>) returns (dacs: map<int, Dac>)
    requires numberToName.Keys <= dacBits.Keys
    ensures dacs.Keys == numberToName.Keys
    ensures forall n :: n in dacs ==>
              dacs[n].number == n && dacs[n].name == numberToName[n] && dacs[n].bits == dacBits[n]
    ensures forall n :: n in dacs ==> fresh(dacs[n]) && dacs[n].value == 0
  {
    dacs := map[];
    var todo := numberToName.Keys;
    while todo != {}
      invariant todo <= numberToName.Keys
      invariant dacs.Keys == numberToName.Keys - todo
      invariant forall n :: n in dacs ==>
                  dacs[n].number == n && dacs[n].name == numberToName[n] && dacs[n].bits == dacBits[n]
      invariant forall n :: n in dacs ==> fresh(dacs[n]) && dacs[n].value == 0
    {
      SomeNumber(todo);
      var n :| n in todo;
      var d := new Dac(n, numberToName[n], dacBits[n]);
      dacs := dacs[n := d];
      todo := todo - {n};
    }
  }

  /** A readout chip: a `cols` by `rows` grid of pixels, stored as a list of
      columns, and one DAC per configured number. */
  class Roc {
    const rows: nat
    const cols: nat
    const nPixels: nat
    var number: int
    const grid: seq<seq<Pixel>>
    const numberToName: map<int, string>
    const nameToNumber: map<string, int>
    const dacs: map<int, Dac>

    /** The structure fixed at construction. */
    ghost predicate Valid()
    {
      nPixels == rows * cols
      && |grid| == cols
      && Rectangular(grid, rows)
      && (forall c, r :: 0 <= c < cols && 0 <= r < rows ==> grid[c][r].col == c && grid[c][r].row == r)
      && dacs.Keys == numberToName.Keys
      && (forall n :: n in dacs ==> dacs[n].number == n && dacs[n].name == numberToName[n])
      && (forall n :: n in numberToName ==> numberToName[n] in nameToNumber)
      && (forall s :: s in nameToNumber ==> nameToNumber[s] in numberToName && numberToName[nameToNumber[s]] == s)
    }

    ghost function PixelSet(): set<Pixel>
    {
      set c, r | 0 <= c < |grid| && 0 <= r < |grid[c]| :: grid[c][r]
    }

    ghost function DacSet(): set<Dac>
    {
      set n | n in dacs :: dacs[n]
    }

    /** Every object the chip owns. */
    ghost function Repr(): set<object>
    {
      PixelSet() + DacSet()
    }

    /** The chip has the given geometry and DAC names, and DAC `n` has width
        `dacBits[n]`. */
    ghost predicate BuiltFrom(rows: nat, cols: nat, numberToName: map<int, string>, dacBits: map<int, nat>)
    {
      Valid()
      && this.rows == rows && this.cols == cols && this.numberToName == numberToName
      && (forall n :: n in dacs ==> n in dacBits && dacs[n].bits == dacBits[n])
    }

    /** Every trim and every DAC value is within its bound. */
    ghost predicate ValuesInRange()
      reads Repr()
    {
      (forall p :: p in PixelSet() ==> p.Valid())
      && (forall d :: d in DacSet() ==> d.Valid())
    }

    /** The state right after construction: default trims, no masks, DACs at 0. */
    ghost predicate Initial()
      reads Repr()
    {
      (forall p :: p in PixelSet() ==> p.trim == DefaultTrim && !p.mask)
      && (forall d :: d in DacSet() ==> d.value == 0)
    }

    /** Builds the whole pixel grid and all DACs eagerly; every DAC number
        needs a bit width. */
    constructor (rows: nat, cols: nat, numberToName: map<int, string>, dacBits: map<int, nat>, number: int := 0)
      requires numberToName.Keys <= dacBits.Keys
      ensures Valid()
      ensures this.rows == rows && this.cols == cols && this.number == number
      ensures this.numberToName == numberToName
      ensures forall n :: n in dacs ==> dacs[n].bits == dacBits[n]
      ensures BuiltFrom(rows, cols, numberToName, dacBits)
      ensures fresh(Repr())
      ensures Initial() && ValuesInRange()
    {
      var columns := NewGrid(rows, cols);
      var reverse := ReverseNames(numberToName);
      var table := NewDacs(numberToName, dacBits);
      this.rows := rows;
      this.cols := cols;
      nPixels := rows * cols;
      this.number := number;
      grid := columns;
      this.numberToName := numberToName;
      nameToNumber := reverse;
      dacs := table;
    }

    /** The pixel at column `c`, row `r`. */
    function PixelAt(c: int, r: int): (p: Pixel)
      requires Valid()
      requires 0 <= c < cols && 0 <= r < rows
      ensures p.col == c && p.row == r
      ensures p in PixelSet()
    {
      grid[c][r]
    }

    /** The DAC with the given number, or the one the name table maps the
        given name to. */
    function GetDac(id: DacId): (d: Result<Dac>)
      requires Valid()
      ensures d.Err? ==> d.error == UnknownKey
      ensures id.ByNumber? ==> (d.Ok? <==> id.number in numberToName)
      ensures id.ByName? ==> (d.Ok? <==> exists n :: n in numberToName && numberToName[n] == id.name)
      ensures d.Ok? ==> d.value in DacSet()
      ensures d.Ok? && id.ByNumber? ==> d.value.number == id.number && d.value.name == numberToName[id.number]
      ensures d.Ok? && id.ByName? ==> d.value.name == id.name
    {
      match id
      case ByNumber(n) =>
        if n in dacs then Ok(dacs[n]) else Err(UnknownKey)
      case ByName(s) =>
        if s in nameToNumber then
          var n := nameToNumber[s];
          assert n in dacs && dacs[n].name == s;
          Ok(dacs[n])
        else
          Err(UnknownKey)
    }

    /** With unique names, looking a DAC up by its name finds the same
        object as looking it up by its number. */
    lemma NameAndNumberAgree(n: int)
      requires Valid() && Injective(numberToName)
      requires n in numberToName
      ensures GetDac(ByName(numberToName[n])) == GetDac(ByNumber(n))
      ensures GetDac(ByNumber(n)).Ok?
    {
      var s := numberToName[n];
      assert numberToName[nameToNumber[s]] == s;
    }

    /** The column-major walk of the grid visits `nPixels` pixels. */
    lemma WalkLength()
      requires Valid()
      ensures |Flatten(grid)| == nPixels
    {
      FlattenLength(grid, rows);
    }

    /** Step `k` of the walk is pixel `k % rows` of column `k / rows`. */
    lemma WalkAt(k: int)
      requires Valid()
      requires 0 <= k < nPixels
      ensures rows > 0 && 0 <= k / rows < cols && 0 <= k % rows < rows
      ensures k < |Flatten(grid)| && Flatten(grid)[k] == grid[k / rows][k % rows]
    {
      FlattenIndex(grid, rows, k);
    }

    /** The step of the column-major walk at which pixel `(c, r)` is visited. */
    function Position(c: int, r: int): (k: int)
    {
      c * rows + r
    }

    /** Pixel `(c, r)` is step `c * rows + r` of the walk. */
    lemma WalkIndexOf(c: int, r: int)
      requires Valid()
      requires 0 <= c < cols && 0 <= r < rows
      ensures 0 <= Position(c, r) < nPixels
      ensures Position(c, r) < |Flatten(grid)| && Flatten(grid)[Position(c, r)] == grid[c][r]
    {
      FlattenAt(grid, rows, c, r);
    }

    /** Step `k` of the walk is the pixel at column `k / rows`, row `k % rows`. */
    lemma WalkOrder()
      requires Valid()
      ensures |Flatten(grid)| == nPixels
      ensures forall k :: 0 <= k < nPixels ==> Flatten(grid)[k].col == k / rows && Flatten(grid)[k].row == k % rows
    {
      WalkLength();
      forall k | 0 <= k < nPixels
        ensures Flatten(grid)[k].col == k / rows && Flatten(grid)[k].row == k % rows
      {
        WalkAt(k);
      }
    }

    /** Every pixel has its own step of the walk. */
    lemma WalkPositions()
      requires Valid()
      ensures forall c, r :: 0 <= c < cols && 0 <= r < rows ==>
                Position(c, r) < |Flatten(grid)| && Flatten(grid)[Position(c, r)] == grid[c][r]
    {
      forall c, r | 0 <= c < cols && 0 <= r < rows
        ensures Position(c, r) < |Flatten(grid)| && Flatten(grid)[Position(c, r)] == grid[c][r]
      {
        WalkIndexOf(c, r);
      }
    }

    /** No two steps of the walk visit the same coordinates. */
    lemma WalkCoordinatesUnique(k: int, j: int)
      requires Valid()
      requires 0 <= k < |Flatten(grid)| && 0 <= j < |Flatten(grid)|
      requires Flatten(grid)[k].col == Flatten(grid)[j].col && Flatten(grid)[k].row == Flatten(grid)[j].row
      ensures k == j
    {
      WalkLength();
      WalkAt(k);
      WalkAt(j);
      IndexBounds(k, rows, cols);
      IndexBounds(j, rows, cols);
    }

    /** All pixels, column by column and, inside a column, by ascending row. */
    method Pixels() returns (ps: seq<Pixel>)
      requires Valid()
      ensures ps == Flatten(grid)
      ensures |ps| == nPixels
      ensures forall k :: 0 <= k < |ps| ==> ps[k].col == k / rows && ps[k].row == k % rows
      ensures forall c, r :: 0 <= c < cols && 0 <= r < rows ==> Position(c, r) < |ps| && ps[Position(c, r)] == grid[c][r]
    {
      ps := [];
      var c := 0;
      while c < cols
        invariant 0 <= c <= cols
        invariant ps == Flatten(grid[..c])
      {
        var r := 0;
        while r < rows
          invariant 0 <= r <= rows
          invariant ps == Flatten(grid[..c]) + grid[c][..r]
        {
          ps := ps + [grid[c][r]];
          r := r + 1;
        }
        assert grid[c][..rows] == grid[c];
        FlattenSnoc(grid, c);
        c := c + 1;
      }
      assert grid[..cols] == grid;
      WalkOrder();
      WalkPositions();
    }

    /** The pixels of column `c`, by ascending row. */
    method Column(c: int) returns (ps: seq<Pixel>)
      requires Valid()
      requires 0 <= c < cols
      ensures |ps| == rows
      ensures forall r :: 0 <= r < rows ==> ps[r] == PixelAt(c, r)
      ensures forall k :: 0 <= k < |ps| ==> ps[k].col == c && ps[k].row == k
    {
      ps := [];
      var r := 0;
      while r < rows
        invariant 0 <= r <= rows && |ps| == r
        invariant forall k :: 0 <= k < r ==> ps[k] == grid[c][k]
      {
        ps := ps + [grid[c][r]];
        r := r + 1;
      }
    }

    /** The pixels of row `r`, by ascending column. */
    method Row(r: int) returns (ps: seq<Pixel>)
      requires Valid()
      requires 0 <= r < rows
      ensures |ps| == cols
      ensures forall c :: 0 <= c < cols ==> ps[c] == PixelAt(c, r)
      ensures forall k :: 0 <= k < |ps| ==> ps[k].col == k && ps[k].row == r
    {
      ps := [];
      var c := 0;
      while c < cols
        invariant 0 <= c <= cols && |ps| == c
        invariant forall k :: 0 <= k < c ==> ps[k] == grid[k][r]
      {
        ps := ps + [grid[c][r]];
        c := c + 1;
      }
    }

    /** The walk visits exactly the chip's pixels. */
    lemma WalkCoversPixelSet()
      requires Valid()
      ensures forall k :: 0 <= k < |Flatten(grid)| ==> Flatten(grid)[k] in PixelSet()
    {
      WalkLength();
      forall k | 0 <= k < |Flatten(grid)|
        ensures Flatten(grid)[k] in PixelSet()
      {
        WalkAt(k);
      }
    }

    /** The chip's mask reads true iff some pixel is masked. */
    function Masked(): (m: bool)
      requires Valid()
      reads PixelSet()
      ensures m <==> exists c, r :: 0 <= c < cols && 0 <= r < rows && PixelAt(c, r).mask
    {
      WalkCoversPixelSet();
      MaskedIsSomePixel();
      AnyMasked(Flatten(grid))
    }

    /** Some step of the walk is masked iff some pixel of the grid is. */
    lemma MaskedIsSomePixel()
      requires Valid()
      ensures AnyMasked(Flatten(grid)) <==> exists c, r :: 0 <= c < cols && 0 <= r < rows && PixelAt(c, r).mask
    {
      var ps := Flatten(grid);
      WalkLength();
      if AnyMasked(ps) {
        var k :| 0 <= k < |ps| && ps[k].mask;
        WalkAt(k);
        assert PixelAt(k / rows, k % rows).mask;
      }
      if exists c, r :: 0 <= c < cols && 0 <= r < rows && PixelAt(c, r).mask {
        var c, r :| 0 <= c < cols && 0 <= r < rows && PixelAt(c, r).mask;
        WalkIndexOf(c, r);
        assert ps[Position(c, r)].mask;
      }
    }

    /** When every pixel carries the same mask `b`, the chip's mask reads `b`,
        except on an empty grid, where it reads false. */
    lemma MaskedWhenUniform(b: bool)
      requires Valid()
      requires forall c, r :: 0 <= c < cols && 0 <= r < rows ==> PixelAt(c, r).mask == b
      ensures Masked() == (b && nPixels > 0)
    {
      if b && nPixels > 0 {
        assert rows > 0 && cols > 0;
        assert PixelAt(0, 0).mask;
      }
    }

    /** Setting the chip's mask sets the mask of every pixel to `b`; nothing
        else changes. */
    method SetMask(b: bool)
      requires Valid()
      modifies PixelSet()
      ensures forall c, r :: 0 <= c < cols && 0 <= r < rows ==> PixelAt(c, r).mask == b
      ensures forall p :: p in PixelSet() ==> p.trim == old(p.trim)
      ensures Masked() == (b && nPixels > 0)
      ensures old(ValuesInRange()) ==> ValuesInRange()
    {
      var ps := Pixels();
      var i := 0;
      while i < |ps|
        invariant 0 <= i <= |ps|
        invariant forall k :: 0 <= k < i ==> ps[k].mask == b
        invariant forall p :: p in PixelSet() ==> p.trim == old(p.trim)
      {
        WalkAt(i);
        assert ps[i] == PixelAt(i / rows, i % rows);
        ps[i].SetMask(b);
        i := i + 1;
      }
      forall c, r | 0 <= c < cols && 0 <= r < rows
        ensures PixelAt(c, r).mask == b
      {
        assert ps[Position(c, r)] == grid[c][r];
      }
      MaskedWhenUniform(b);
    }
  }

  /** A token bit manager: it only records its channel count. */
  class Tbm {
    const channels: int
    var number: int

    constructor (channels: int, number: int := 0)
      ensures this.channels == channels && this.number == number
    {
      this.channels := channels;
      this.number := number;
    }
  }

  /** The chips of a new module, numbered from 0, each built from the same
      geometry and DAC tables and owning objects of its own. */
  method NewRocs(nRocs: nat, rows: nat, cols: nat, numberToName: map<int, string>, dacBits: map<int, nat>)
    returns (rocs: seq<Roc>)
    requires numberToName.Keys <= dacBits.Keys
    ensures |rocs| == nRocs
    ensures forall k :: 0 <= k < nRocs ==>
              rocs[k].BuiltFrom(rows, cols, numberToName, dacBits) && rocs[k].number == k
    ensures forall k :: 0 <= k < nRocs ==> fresh(rocs[k].Repr()) && rocs[k].Initial()
    ensures forall k, l :: 0 <= k < nRocs && 0 <= l < nRocs && k != l ==>
              rocs[k] != rocs[l] && rocs[k].Repr() !! rocs[l].Repr()
  {
    rocs := [];
    var i := 0;
    while i < nRocs
      invariant 0 <= i <= nRocs && |rocs| == i
      invariant forall k :: 0 <= k < i ==>
                  rocs[k].BuiltFrom(rows, cols, numberToName, dacBits) && rocs[k].number == k
      invariant forall k :: 0 <= k < i ==> fresh(rocs[k].Repr()) && rocs[k].Initial()
      invariant forall k, l :: 0 <= k < i && 0 <= l < i && k != l ==>
                  rocs[k] != rocs[l] && rocs[k].Repr() !! rocs[l].Repr()
    {
      var roc := new Roc(rows, cols, numberToName, dacBits, i);
      rocs := rocs + [roc];
      i := i + 1;
    }
  }

  /** The token bit managers of a new module, numbered from 0. */
  method NewTbms(nTbms: nat, channels: int) returns (tbms: seq<Tbm>)
    ensures |tbms| == nTbms
    ensures forall k :: 0 <= k < nTbms ==> tbms[k].number == k && tbms[k].channels == channels
  {
    tbms := [];
    var i := 0;
    while i < nTbms
      invariant 0 <= i <= nTbms && |tbms| == i
      invariant forall k :: 0 <= k < i ==> tbms[k].number == k && tbms[k].channels == channels
    {
      var tbm := new Tbm(channels, i);
      tbms := tbms + [tbm];
      i := i + 1;
    }
  }

  /** The whole module: chips numbered 0 to nRocs - 1 and TBMs numbered 0 to
      nTbms - 1, all chips built from the same geometry and DAC tables. */
  class Module {
    const nRocs: nat
    const nTbms: nat
    const rocList: seq<Roc>
    const tbmList: seq<Tbm>

    /** The structure fixed at construction; no two chips share an object. */
    ghost predicate Valid()
    {
      |rocList| == nRocs && |tbmList| == nTbms
      && (forall i :: 0 <= i < nRocs ==> rocList[i].Valid())
      && (forall i, j :: 0 <= i < nRocs && 0 <= j < nRocs && i != j ==>
            rocList[i] != rocList[j] && rocList[i].Repr() !! rocList[j].Repr())
    }

    constructor (nRocs: nat, nTbms: nat, rows: nat, cols: nat,
                 numberToName: map<int, string>, dacBits: map<int, nat>, channels: int)
      requires numberToName.Keys <= dacBits.Keys
      ensures Valid()
      ensures this.nRocs == nRocs && this.nTbms == nTbms
      ensures forall i :: 0 <= i < nRocs ==>
                rocList[i].BuiltFrom(rows, cols, numberToName, dacBits) && rocList[i].number == i
      ensures forall i :: 0 <= i < nRocs ==> fresh(rocList[i].Repr()) && rocList[i].Initial()
      ensures forall i :: 0 <= i < nTbms ==> tbmList[i].number == i && tbmList[i].channels == channels
    {
      var rocs := NewRocs(nRocs, rows, cols, numberToName, dacBits);
      var tbms := NewTbms(nTbms, channels);
      this.nRocs := nRocs;
      this.nTbms := nTbms;
      rocList := rocs;
      tbmList := tbms;
    }

    /** Chip number `i`. */
    function RocAt(i: int): (roc: Roc)
      requires Valid()
      requires 0 <= i < nRocs
      ensures roc.Valid()
      ensures forall j :: 0 <= j < nRocs && j != i ==> rocList[j] != roc
    {
      rocList[i]
    }

    /** All chips, in ascending order of index. */
    method Rocs() returns (rs: seq<Roc>)
      requires Valid()
      ensures |rs| == nRocs
      ensures forall k :: 0 <= k < |rs| ==> rs[k] == RocAt(k)
    {
      rs := [];
      var i := 0;
      while i < nRocs
        invariant 0 <= i <= nRocs && |rs| == i
        invariant forall k :: 0 <= k < i ==> rs[k] == rocList[k]
      {
        rs := rs + [RocAt(i)];
        i := i + 1;
      }
    }

    /** The pixel at column `c`, row `r` of chip `i`. */
    function PixelAt(i: int, c: int, r: int): (p: Pixel)
      requires Valid()
      requires 0 <= i < nRocs
      requires 0 <= c < RocAt(i).cols && 0 <= r < RocAt(i).rows
      ensures p == RocAt(i).PixelAt(c, r)
      ensures p.col == c && p.row == r
      ensures forall j :: 0 <= j < nRocs && j != i ==> p !in RocAt(j).PixelSet()
    {
      RocAt(i).PixelAt(c, r)
    }

    /** The DAC `id` of chip `i`. */
    function GetDac(i: int, id: DacId): (d: Result<Dac>)
      requires Valid()
      requires 0 <= i < nRocs
      ensures d == RocAt(i).GetDac(id)
      ensures d.Ok? ==> forall j :: 0 <= j < nRocs && j != i ==> d.value !in RocAt(j).DacSet()
    {
      RocAt(i).GetDac(id)
    }
  }
}

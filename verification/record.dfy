/** The `ovf2_data` record of libovf2.h and the operations on it that need no stream:
    `ovf2_datalen`, `ovf2_get` and `ovf2_free`, plus the error messages `ovf2_read` stores. */
module Record {
  import opened Wrappers
  import opened Arith
  import opened Seqs
  import opened Decimal

  /** A sample: the bit pattern of an IEEE-754 single-precision float, never interpreted here. */
  type Float32 = bv32

  /** `BUFLEN`: the size of the buffers for header lines and error messages. */
  const BufLen: nat := 2047

  /** The failures `ovf2_read` records, with the values its messages print. */
  datatype Error =
    | InputError(errno: int)
    | InvalidHeaderLine(line: string)
    | InvalidValueDim(valuedim: int)
    | InvalidGridSize(xnodes: int, ynodes: int, znodes: int)

  const ReadPrefix := "ovf2_read: "

  /** The message as `snprintf` formats it, before the buffer size cuts it. */
  function Message(e: Error): string
  {
    match e
    case InputError(errno) => ReadPrefix + "input error: errno " + IntToDecimal(errno)
    case InvalidHeaderLine(line) => ReadPrefix + "invalid header line: \"" + line + "\""
    case InvalidValueDim(v) => ReadPrefix + "invalid valuedim: " + IntToDecimal(v)
    case InvalidGridSize(x, y, z) =>
      ReadPrefix + "invalid grid size: " + IntToDecimal(x) + " x " + IntToDecimal(y) + " x " + IntToDecimal(z)
  }

  /** The error text stored in `err`: `snprintf` into a `BUFLEN` buffer keeps at most `BUFLEN - 1`
      characters of the message. */
  function ErrorText(e: Error): (t: string)
    ensures t <= Message(e)
    ensures |t| <= BufLen - 1
    ensures |Message(e)| <= BufLen - 1 ==> t == Message(e)
    ensures |Message(e)| > BufLen - 1 ==> |t| == BufLen - 1
    ensures ReadPrefix <= t
  {
    var m := Message(e);
    assert m[..|ReadPrefix|] == ReadPrefix;
    if |m| <= BufLen - 1 then m else m[..BufLen - 1]
  }

  /** `ovf2_data`: an error message or NULL, the number of components, the grid size and the
      sample array (NULL until something fills it). */
  datatype Ovf2Data = Ovf2Data(
    err: Option<Error>,
    valuedim: int,
    xnodes: int,
    ynodes: int,
    znodes: int,
    data: Option<seq<Float32>>)

  /** The record with every field zero or NULL (`ovf2_data d = {}`). */
  const Zero := Ovf2Data(None, 0, 0, 0, 0, None)

  predicate AllPositive(d: Ovf2Data)
  {
    d.valuedim > 0 && d.xnodes > 0 && d.ynodes > 0 && d.znodes > 0
  }

  /** `ovf2_datalen`: the number of samples the grid holds. */
  function DataLen(d: Ovf2Data): (n: int)
    ensures AllPositive(d) ==> n >= d.valuedim && n >= d.xnodes && n >= d.ynodes && n >= d.znodes
    ensures d.valuedim == 0 || d.xnodes == 0 || d.ynodes == 0 || d.znodes == 0 ==> n == 0
  {
    if AllPositive(d) then
      MulMonotone(d.valuedim, 1, d.xnodes);
      MulMonotone(d.valuedim * d.xnodes, 1, d.ynodes);
      MulMonotone(d.valuedim * d.xnodes * d.ynodes, 1, d.znodes);
      MulMonotone(d.xnodes, 1, d.valuedim);
      MulMonotone(d.ynodes, 1, d.valuedim * d.xnodes);
      MulMonotone(d.znodes, 1, d.valuedim * d.xnodes * d.ynodes);
      d.valuedim * d.xnodes * d.ynodes * d.znodes
    else
      d.valuedim * d.xnodes * d.ynodes * d.znodes
  }

  /** The record carries a sample array of exactly `ovf2_datalen` samples. */
  predicate HasData(d: Ovf2Data)
  {
    d.data.Some? && |d.data.value| == DataLen(d)
  }

  /** The bounds `ovf2_get` asserts. */
  predicate InBounds(d: Ovf2Data, c: int, x: int, y: int, z: int)
  {
    && 0 <= c < d.valuedim
    && 0 <= x < d.xnodes
    && 0 <= y < d.ynodes
    && 0 <= z < d.znodes
  }

  /** The flat index `ovf2_get` reads. */
  function Offset(d: Ovf2Data, c: int, x: int, y: int, z: int): int
  {
    ((c * d.znodes + z) * d.ynodes + y) * d.xnodes + x
  }

  /** A grid coordinate: component and node position. */
  datatype Coord = Coord(c: int, x: int, y: int, z: int)

  /** Every in-bounds coordinate addresses a sample of the array. */
  lemma {:induction false} OffsetInRange(d: Ovf2Data, c: int, x: int, y: int, z: int)
    requires InBounds(d, c, x, y, z)
    ensures 0 <= Offset(d, c, x, y, z) < DataLen(d)
  {
    var nc, nx, ny, nz := d.valuedim, d.xnodes, d.ynodes, d.znodes;
    MixedRadixBound(z, nz, c, nc);
    MixedRadixBound(y, ny, z + nz * c, nz * nc);
    MixedRadixBound(x, nx, y + ny * (z + nz * c), ny * (nz * nc));
    OffsetDigits(d, c, x, y, z);
    DataLenRadix(d);
  }

  /** The coordinate stored at flat index `k`: the digits of `k` in the radices
      `xnodes`, `ynodes`, `znodes`, least significant first. */
  function CoordOf(d: Ovf2Data, k: int): Coord
    requires AllPositive(d)
  {
    var k1 := k / d.xnodes;
    var k2 := k1 / d.ynodes;
    Coord(k2 / d.znodes, k % d.xnodes, k1 % d.ynodes, k2 % d.znodes)
  }

  /** Decoding an in-bounds coordinate's index gives the coordinate back, so distinct coordinates
      never share a sample. */
  lemma {:induction false} CoordOfOffset(d: Ovf2Data, c: int, x: int, y: int, z: int)
    requires InBounds(d, c, x, y, z)
    ensures CoordOf(d, Offset(d, c, x, y, z)) == Coord(c, x, y, z)
  {
    OffsetDigits(d, c, x, y, z);
    DigitsOfNumber(x, d.xnodes, y, d.ynodes, z, d.znodes, c);
  }

  /** The flat index as a mixed-radix number, `x` its least significant digit. */
  lemma {:induction false} OffsetDigits(d: Ovf2Data, c: int, x: int, y: int, z: int)
    ensures Offset(d, c, x, y, z) == x + d.xnodes * (y + d.ynodes * (z + d.znodes * c))
  {
  }

  lemma {:induction false} DataLenRadix(d: Ovf2Data)
    ensures DataLen(d) == d.xnodes * (d.ynodes * (d.znodes * d.valuedim))
  {
  }

  /** Every index of the array belongs to some in-bounds coordinate. */
  lemma {:induction false} OffsetOfCoord(d: Ovf2Data, k: int)
    requires AllPositive(d)
    requires 0 <= k < DataLen(d)
    ensures var p := CoordOf(d, k);
            InBounds(d, p.c, p.x, p.y, p.z) && Offset(d, p.c, p.x, p.y, p.z) == k
  {
    DataLenRadix(d);
    NumberOfDigits(k, d.xnodes, d.ynodes, d.znodes, d.valuedim);
    var p := CoordOf(d, k);
    OffsetDigits(d, p.c, p.x, p.y, p.z);
  }

  /** Distinct in-bounds coordinates address distinct samples. */
  lemma {:induction false} OffsetInjective(d: Ovf2Data, p: Coord, q: Coord)
    requires InBounds(d, p.c, p.x, p.y, p.z) && InBounds(d, q.c, q.x, q.y, q.z)
    requires Offset(d, p.c, p.x, p.y, p.z) == Offset(d, q.c, q.x, q.y, q.z)
    ensures p == q
  {
    CoordOfOffset(d, p.c, p.x, p.y, p.z);
    CoordOfOffset(d, q.c, q.x, q.y, q.z);
  }

  /** The sample array seen as the nested array `data[c][z][y][x]` it stands for. */
  function Grid(d: Ovf2Data): (g: seq<seq<seq<seq<Float32>>>>)
    requires AllPositive(d) && HasData(d)
    ensures |g| == d.valuedim
  {
    var nc, nx, ny, nz := d.valuedim, d.xnodes, d.ynodes, d.znodes;
    assert DataLen(d) == nc * (nz * (ny * nx));
    var cubes := Chunk(d.data.value, nc, nz * (ny * nx));
    seq(nc, c requires 0 <= c < nc =>
      var planes := Chunk(cubes[c], nz, ny * nx);
      seq(nz, z requires 0 <= z < nz => Chunk(planes[z], ny, nx)))
  }

  /** Each component of the nested view holds `znodes` planes of `ynodes` rows of `xnodes`
      samples. */
  lemma {:induction false} GridShape(d: Ovf2Data, c: int, z: int, y: int)
    requires AllPositive(d) && HasData(d)
    requires 0 <= c < d.valuedim && 0 <= z < d.znodes && 0 <= y < d.ynodes
    ensures |Grid(d)[c]| == d.znodes && |Grid(d)[c][z]| == d.ynodes && |Grid(d)[c][z][y]| == d.xnodes
  {
  }

  lemma {:induction false} NestedIndex(d: Ovf2Data, c: int, x: int, y: int, z: int)
    ensures var nx, ny, nz := d.xnodes, d.ynodes, d.znodes;
            c * (nz * (ny * nx)) + (z * (ny * nx) + (y * nx + x)) == Offset(d, c, x, y, z)
  {
  }

  /** Cell `[c][z][y][x]` of the nested view is the sample at the flat index `ovf2_get` reads. */
  lemma {:induction false} GridIndex(d: Ovf2Data, c: int, x: int, y: int, z: int)
    requires HasData(d) && InBounds(d, c, x, y, z)
    ensures 0 <= Offset(d, c, x, y, z) < |d.data.value|
    ensures Grid(d)[c][z][y][x] == d.data.value[Offset(d, c, x, y, z)]
  {
    OffsetInRange(d, c, x, y, z);
    var nc, nx, ny, nz := d.valuedim, d.xnodes, d.ynodes, d.znodes;
    var plane := ny * nx;
    var cube := nz * plane;
    assert DataLen(d) == nc * cube;
    var s := d.data.value;
    var row := y * nx + x;
    MixedRadixBound(x, nx, y, ny);
    MixedRadixBound(row, plane, z, nz);
    var cubes := Chunk(s, nc, cube);
    ChunkIndex(s, nc, cube, c, z * plane + row);
    var planes := Chunk(cubes[c], nz, plane);
    ChunkIndex(cubes[c], nz, plane, z, row);
    ChunkIndex(planes[z], ny, nx, y, x);
    assert Grid(d)[c][z] == Chunk(planes[z], ny, nx);
    NestedIndex(d, c, x, y, z);
  }

  /** `ovf2_get`: the sample at component `c` of node `(x, y, z)`, which is element
      `data[c][z][y][x]` of the array. */
  function Get(d: Ovf2Data, c: int, x: int, y: int, z: int): (v: Float32)
    requires HasData(d)
    requires InBounds(d, c, x, y, z)
    ensures v == Grid(d)[c][z][y][x]
  {
    GridIndex(d, c, x, y, z);
    d.data.value[Offset(d, c, x, y, z)]
  }

  /** `ovf2_free`: drop the error text and the samples and zero the grid size, so the record
      holds nothing that could be read by accident. */
  function Free(d: Ovf2Data): (r: Ovf2Data)
    ensures r.err.None? && r.data.None?
    ensures r.valuedim == 0 && r.xnodes == 0 && r.ynodes == 0 && r.znodes == 0
    ensures DataLen(r) == 0
    ensures forall c, x, y, z :: !InBounds(r, c, x, y, z)
  {
    Ovf2Data(None, 0, 0, 0, 0, None)
  }

  /** Freeing twice is the same as freeing once. */
  lemma {:induction false} FreeIdempotent(d: Ovf2Data)
    ensures Free(Free(d)) == Free(d)
  {
  }
}

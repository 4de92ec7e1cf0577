/** `ovf2_write`: the text rendering of a record, as a sequence of output tokens. Samples stay
    opaque: one `Sample` token stands for what `fprintf(out, "%f ", v)` prints for `v`. */
module Writer {
  import opened Arith
  import opened Seqs
  import opened Decimal
  import opened Record
  import opened Layout

  /** One piece of output: text put as it is, or one sample printed with `%f` and a blank. */
  datatype Token = Text(text: string) | Sample(value: Float32)

  const Newline := Text("\n")

  /** A header line as the writer puts it: `# `, the text, a line feed. */
  function HeaderText(t: string): string
  {
    "# " + t + "\n"
  }

  const Signature := "OOMMF OVF 2.0"
  const SegmentCount := "Segment count: 1"
  const BeginSegment := "Begin: Segment"
  const BeginHeader := "Begin: Header"

  /** A `name: %d` header line. */
  function NumberLine(name: string, n: int): string
  {
    HeaderText(name + ": " + IntToDecimal(n))
  }

  /** The eight header lines: four fixed ones, then the four numbers. */
  function HeaderLines(d: Ovf2Data): (ls: seq<string>)
    ensures |ls| == 8
  {
    [ HeaderText(Signature),
      HeaderText(SegmentCount),
      HeaderText(BeginSegment),
      HeaderText(BeginHeader),
      NumberLine("valuedim", d.valuedim),
      NumberLine("xnodes", d.xnodes),
      NumberLine("ynodes", d.ynodes),
      NumberLine("znodes", d.znodes) ]
  }

  /** The number of passes of `for (i = 0; i < n; i++)`. */
  function Passes(n: int): (k: nat)
    ensures n > 0 ==> k == n
    ensures n <= 0 ==> k == 0
  {
    if n > 0 then n else 0
  }

  /** `ovf2_get` is reached only when all four loops run, and then it needs the samples. */
  predicate CanWrite(d: Ovf2Data)
  {
    d.err.Some? || !AllPositive(d) || HasData(d)
  }

  /** What the innermost loop prints for component `c` of node `(x, y, z)`. The loops reach it
      only inside the grid of a record with samples; elsewhere it is a line feed, which is never
      printed. */
  function Cell(d: Ovf2Data): (int, int, int, int) -> Token
  {
    (c, x, y, z) => if HasData(d) && InBounds(d, c, x, y, z) then Sample(Get(d, c, x, y, z)) else Newline
  }

  /** The sample section: the loop nest over the record's own grid size. */
  function Body(d: Ovf2Data): seq<Token>
  {
    Items(Cell(d), Passes(d.valuedim), Passes(d.xnodes), Passes(d.ynodes), Passes(d.znodes), Newline)
  }

  /** `ovf2_write`: only the error text when there is one; otherwise the eight header lines, then
      the samples. */
  function Write(d: Ovf2Data): (out: seq<Token>)
    requires CanWrite(d)
    ensures d.err.Some? ==> out == [Text(ErrorText(d.err.value))]
    ensures d.err.None? ==> |out| >= 8
    ensures d.err.None? ==> forall i :: 0 <= i < 8 ==> out[i] == Text(HeaderLines(d)[i])
  {
    if d.err.Some? then [Text(ErrorText(d.err.value))]
    else seq(8, i requires 0 <= i < 8 => Text(HeaderLines(d)[i])) + Body(d)
  }

  /** The position in `Write(d)` of the sample of component `c` of node `(x, y, z)`. */
  function SamplePos(d: Ovf2Data, c: int, x: int, y: int, z: int): int
  {
    8 + z * PlaneLen(d) + y * RowLen(d) + x * d.valuedim + c
  }

  /** Tokens in one row: the samples and the row's line feed. */
  function RowLen(d: Ovf2Data): nat
  {
    Passes(d.xnodes) * Passes(d.valuedim) + 1
  }

  /** Tokens in one plane: its rows and the plane's line feed. */
  function PlaneLen(d: Ovf2Data): nat
  {
    Passes(d.ynodes) * RowLen(d) + 1
  }

  /** Without an error, the output is the header and then `znodes` planes of `ynodes` rows, each
      row `xnodes * valuedim` samples and a line feed, each plane one more line feed (a count
      that is not positive runs its loop zero times). */
  lemma {:induction false} WriteLength(d: Ovf2Data)
    requires d.err.None? && CanWrite(d)
    ensures |Write(d)| == 8 + Passes(d.znodes) * PlaneLen(d)
  {
    ItemsLength(Cell(d), Passes(d.valuedim), Passes(d.xnodes), Passes(d.ynodes), Passes(d.znodes), Newline);
  }

  /** Without an error, token `i` of the output past the header is item `i - 8` of the sample
      section. */
  lemma {:induction false} WriteBodyAt(d: Ovf2Data, i: int, t: Token)
    requires d.err.None? && CanWrite(d) && 8 <= i < 8 + |Body(d)| && Body(d)[i - 8] == t
    ensures i < |Write(d)| && Write(d)[i] == t
  {
    assert Write(d) == seq(8, i requires 0 <= i < 8 => Text(HeaderLines(d)[i])) + Body(d);
  }

  /** In the sample section, the sample of component `c` of node `(x, y, z)` is item
      `SamplePos - 8`. */
  lemma {:induction false} BodySampleAt(d: Ovf2Data, c: int, x: int, y: int, z: int)
    requires HasData(d) && InBounds(d, c, x, y, z)
    ensures 0 <= SamplePos(d, c, x, y, z) - 8 < |Body(d)|
    ensures Body(d)[SamplePos(d, c, x, y, z) - 8] == Sample(Get(d, c, x, y, z))
  {
    var nc, nx, ny, nz := Passes(d.valuedim), Passes(d.xnodes), Passes(d.ynodes), Passes(d.znodes);
    assert SamplePos(d, c, x, y, z) - 8 == ItemPos(nc, RowLen(d), PlaneLen(d), c, x, y, z);
    ItemAt(Cell(d), nc, nx, ny, nz, Newline, RowLen(d), PlaneLen(d), c, x, y, z);
  }

  /** The sample of component `c` of node `(x, y, z)` is written at `SamplePos`, and the positions
      follow the loop order: `z` outermost, then `y`, then `x`, the component innermost. */
  lemma {:induction false} WriteSampleAt(d: Ovf2Data, c: int, x: int, y: int, z: int)
    requires d.err.None? && HasData(d) && InBounds(d, c, x, y, z)
    ensures 0 <= SamplePos(d, c, x, y, z) < |Write(d)|
    ensures Write(d)[SamplePos(d, c, x, y, z)] == Sample(Get(d, c, x, y, z))
  {
    BodySampleAt(d, c, x, y, z);
    WriteBodyAt(d, SamplePos(d, c, x, y, z), Sample(Get(d, c, x, y, z)));
  }

  /** Samples are written in the order the loops visit them: `z` outermost, then `y`, then `x`,
      the component innermost. */
  lemma {:induction false} WriteSampleOrder(d: Ovf2Data, a: Coord, b: Coord)
    requires InBounds(d, a.c, a.x, a.y, a.z) && InBounds(d, b.c, b.x, b.y, b.z)
    requires VisitedBefore(a.c, a.x, a.y, a.z, b.c, b.x, b.y, b.z)
    ensures SamplePos(d, a.c, a.x, a.y, a.z) < SamplePos(d, b.c, b.x, b.y, b.z)
  {
    assert SamplePos(d, a.c, a.x, a.y, a.z) - 8 == ItemPos(d.valuedim, RowLen(d), PlaneLen(d), a.c, a.x, a.y, a.z);
    assert SamplePos(d, b.c, b.x, b.y, b.z) - 8 == ItemPos(d.valuedim, RowLen(d), PlaneLen(d), b.c, b.x, b.y, b.z);
    ItemPosOrder(d.valuedim, d.xnodes, d.ynodes, RowLen(d), PlaneLen(d),
                 a.c, a.x, a.y, a.z, b.c, b.x, b.y, b.z);
  }

  /** In the sample section, row `(z, y)` ends in a line feed. */
  lemma {:induction false} BodyRowEnd(d: Ovf2Data, z: int, y: int)
    requires 0 <= z < d.znodes && 0 <= y < d.ynodes
    ensures 0 <= z * PlaneLen(d) + y * RowLen(d) + (RowLen(d) - 1) < |Body(d)|
    ensures Body(d)[z * PlaneLen(d) + y * RowLen(d) + (RowLen(d) - 1)] == Newline
  {
    var nc, nx, ny, nz := Passes(d.valuedim), Passes(d.xnodes), Passes(d.ynodes), Passes(d.znodes);
    RowEndAt(Cell(d), nc, nx, ny, nz, Newline, RowLen(d), PlaneLen(d), y, z);
  }

  /** Row `(z, y)` ends in a line feed, right after its last sample. */
  lemma {:induction false} WriteRowEnd(d: Ovf2Data, z: int, y: int)
    requires d.err.None? && CanWrite(d) && 0 <= z < d.znodes && 0 <= y < d.ynodes
    ensures 0 <= 8 + z * PlaneLen(d) + y * RowLen(d) + (RowLen(d) - 1) < |Write(d)|
    ensures Write(d)[8 + z * PlaneLen(d) + y * RowLen(d) + (RowLen(d) - 1)] == Newline
  {
    BodyRowEnd(d, z, y);
    WriteBodyAt(d, 8 + z * PlaneLen(d) + y * RowLen(d) + (RowLen(d) - 1), Newline);
  }

  /** In the sample section, plane `z` ends in one more line feed. */
  lemma {:induction false} BodyPlaneEnd(d: Ovf2Data, z: int)
    requires 0 <= z < d.znodes
    ensures 0 <= z * PlaneLen(d) + (PlaneLen(d) - 1) < |Body(d)|
    ensures Body(d)[z * PlaneLen(d) + (PlaneLen(d) - 1)] == Newline
  {
    var nc, nx, ny, nz := Passes(d.valuedim), Passes(d.xnodes), Passes(d.ynodes), Passes(d.znodes);
    PlaneEndAt(Cell(d), nc, nx, ny, nz, Newline, PlaneLen(d), z);
  }

  /** Plane `z` ends in one more line feed, right after the line feed of its last row. */
  lemma {:induction false} WritePlaneEnd(d: Ovf2Data, z: int)
    requires d.err.None? && CanWrite(d) && 0 <= z < d.znodes
    ensures 0 <= 8 + z * PlaneLen(d) + (PlaneLen(d) - 1) < |Write(d)|
    ensures Write(d)[8 + z * PlaneLen(d) + (PlaneLen(d) - 1)] == Newline
  {
    BodyPlaneEnd(d, z);
    WriteBodyAt(d, 8 + z * PlaneLen(d) + (PlaneLen(d) - 1), Newline);
  }

  predicate IsSample(t: Token)
  {
    t.Sample?
  }

  /** The header lines are text, so every sample written is one of the sample section. */
  lemma {:induction false} WriteSamplesInBody(d: Ovf2Data)
    requires d.err.None? && CanWrite(d)
    ensures CountIf(Write(d), IsSample) == CountIf(Body(d), IsSample)
  {
    var header := seq(8, i requires 0 <= i < 8 => Text(HeaderLines(d)[i]));
    assert Write(d) == header + Body(d);
    CountIfAll(header, IsSample);
    CountIfAppend(header, Body(d), IsSample);
  }

  /** The sample section holds one sample per loop pass and nothing else counts as one. */
  lemma {:induction false} BodySampleCount(d: Ovf2Data)
    requires !AllPositive(d) || HasData(d)
    ensures AllPositive(d) ==> CountIf(Body(d), IsSample) == DataLen(d)
    ensures !AllPositive(d) ==> CountIf(Body(d), IsSample) == 0
  {
    var nc, nx, ny, nz := Passes(d.valuedim), Passes(d.xnodes), Passes(d.ynodes), Passes(d.znodes);
    ItemsCount(Cell(d), nc, nx, ny, nz, Newline, IsSample);
    if !AllPositive(d) {
      assert nc == 0 || nx == 0 || ny == 0 || nz == 0;
      assert nz * (ny * (nx * nc)) == 0;
    } else {
      NestedProduct(nc, nx, ny, nz);
    }
  }

  /** Without an error, exactly `ovf2_datalen` samples are written when the grid size is positive,
      and none otherwise. */
  lemma {:induction false} WriteSampleCount(d: Ovf2Data)
    requires d.err.None? && CanWrite(d)
    ensures AllPositive(d) ==> CountIf(Write(d), IsSample) == DataLen(d)
    ensures !AllPositive(d) ==> CountIf(Write(d), IsSample) == 0
  {
    WriteSamplesInBody(d);
    BodySampleCount(d);
  }
}

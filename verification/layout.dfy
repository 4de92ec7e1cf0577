/** The loop nest `ovf2_write` prints its samples with: planes over `z`, rows over `y`, nodes over
    `x`, components over `c`; a line feed after each row and one more after each plane. The
    printed item of each component is left abstract (`cell`), so this module only says where each
    item lands. */
module Layout {
  import opened Arith
  import opened Seqs

  /** Row `(y, z)`: for each `x`, the `nc` components of node `(x, y, z)`. */
  function RowItems<T>(cell: (int, int, int, int) -> T, nc: nat, nx: nat, y: int, z: int): seq<T>
  {
    Flatten(seq(nx, x => seq(nc, c => cell(c, x, y, z))))
  }

  /** Plane `z`: every row followed by `nl`, then one more `nl`. */
  function PlaneItems<T>(cell: (int, int, int, int) -> T, nc: nat, nx: nat, ny: nat, z: int, nl: T): seq<T>
  {
    Flatten(seq(ny, y => RowItems(cell, nc, nx, y, z) + [nl])) + [nl]
  }

  /** All planes in order of `z`. */
  function Items<T>(cell: (int, int, int, int) -> T, nc: nat, nx: nat, ny: nat, nz: nat, nl: T): seq<T>
  {
    Flatten(seq(nz, z => PlaneItems(cell, nc, nx, ny, z, nl)))
  }

  lemma {:induction false} RowLength<T>(cell: (int, int, int, int) -> T, nc: nat, nx: nat, y: int, z: int)
    ensures |RowItems(cell, nc, nx, y, z)| == nx * nc
  {
    var nodes := seq(nx, x => seq(nc, c => cell(c, x, y, z)));
    assert Uniform(nodes, nc);
    FlattenLength(nodes, nc);
  }

  lemma {:induction false} RowAt<T>(cell: (int, int, int, int) -> T, nc: nat, nx: nat, y: int, z: int, x: nat, c: nat)
    requires x < nx && c < nc
    ensures x * nc + c < |RowItems(cell, nc, nx, y, z)|
    ensures RowItems(cell, nc, nx, y, z)[x * nc + c] == cell(c, x, y, z)
  {
    var nodes := seq(nx, x => seq(nc, c => cell(c, x, y, z)));
    assert Uniform(nodes, nc);
    FlattenIndex(nodes, nc, x, c);
  }

  function Rows<T>(cell: (int, int, int, int) -> T, nc: nat, nx: nat, ny: nat, z: int, nl: T): seq<seq<T>>
  {
    seq(ny, y => RowItems(cell, nc, nx, y, z) + [nl])
  }

  lemma {:induction false} RowsUniform<T>(cell: (int, int, int, int) -> T, nc: nat, nx: nat, ny: nat, z: int, nl: T)
    ensures Uniform(Rows(cell, nc, nx, ny, z, nl), nx * nc + 1)
    ensures PlaneItems(cell, nc, nx, ny, z, nl) == Flatten(Rows(cell, nc, nx, ny, z, nl)) + [nl]
  {
    var rows := Rows(cell, nc, nx, ny, z, nl);
    forall y | 0 <= y < ny
      ensures |rows[y]| == nx * nc + 1
    {
      RowLength(cell, nc, nx, y, z);
    }
  }

  lemma {:induction false} PlaneLength<T>(cell: (int, int, int, int) -> T, nc: nat, nx: nat, ny: nat, z: int, nl: T)
    ensures |PlaneItems(cell, nc, nx, ny, z, nl)| == ny * (nx * nc + 1) + 1
    ensures PlaneItems(cell, nc, nx, ny, z, nl)[ny * (nx * nc + 1)] == nl
  {
    RowsUniform(cell, nc, nx, ny, z, nl);
    FlattenLength(Rows(cell, nc, nx, ny, z, nl), nx * nc + 1);
  }

  lemma {:induction false} PlaneAt<T>(cell: (int, int, int, int) -> T, nc: nat, nx: nat, ny: nat, z: int, nl: T, y: nat, j: nat)
    requires y < ny && j <= nx * nc
    ensures y * (nx * nc + 1) + j < ny * (nx * nc + 1)
    ensures |PlaneItems(cell, nc, nx, ny, z, nl)| == ny * (nx * nc + 1) + 1
    ensures |RowItems(cell, nc, nx, y, z)| == nx * nc
    ensures PlaneItems(cell, nc, nx, ny, z, nl)[y * (nx * nc + 1) + j]
         == (RowItems(cell, nc, nx, y, z) + [nl])[j]
  {
    var rows := Rows(cell, nc, nx, ny, z, nl);
    RowsUniform(cell, nc, nx, ny, z, nl);
    FlattenLength(rows, nx * nc + 1);
    FlattenIndex(rows, nx * nc + 1, y, j);
    RowLength(cell, nc, nx, y, z);
  }

  lemma {:induction false} PlanesUniform<T>(cell: (int, int, int, int) -> T, nc: nat, nx: nat, ny: nat, nz: nat, nl: T)
    ensures Uniform(seq(nz, z => PlaneItems(cell, nc, nx, ny, z, nl)), ny * (nx * nc + 1) + 1)
  {
    forall z | 0 <= z < nz
      ensures |PlaneItems(cell, nc, nx, ny, z, nl)| == ny * (nx * nc + 1) + 1
    {
      PlaneLength(cell, nc, nx, ny, z, nl);
    }
  }

  /** `nz` planes of `ny` rows, each row `nx * nc` items and a line feed, each plane one more
      line feed. */
  lemma {:induction false} ItemsLength<T>(cell: (int, int, int, int) -> T, nc: nat, nx: nat, ny: nat, nz: nat, nl: T)
    ensures |Items(cell, nc, nx, ny, nz, nl)| == nz * (ny * (nx * nc + 1) + 1)
  {
    PlanesUniform(cell, nc, nx, ny, nz, nl);
    FlattenLength(seq(nz, z => PlaneItems(cell, nc, nx, ny, z, nl)), ny * (nx * nc + 1) + 1);
  }

  /** Item `j` of plane `z` sits after `z` planes of `p` items each. */
  lemma {:induction false} ItemsAt<T>(cell: (int, int, int, int) -> T, nc: nat, nx: nat, ny: nat, nz: nat, nl: T,
                                      p: nat, z: nat, j: nat)
    requires p == ny * (nx * nc + 1) + 1
    requires z < nz && j < p
    ensures |Items(cell, nc, nx, ny, nz, nl)| == nz * p
    ensures 0 <= z * p + j < |Items(cell, nc, nx, ny, nz, nl)|
    ensures |PlaneItems(cell, nc, nx, ny, z, nl)| == p
    ensures Items(cell, nc, nx, ny, nz, nl)[z * p + j] == PlaneItems(cell, nc, nx, ny, z, nl)[j]
  {
    var planes := seq(nz, z => PlaneItems(cell, nc, nx, ny, z, nl));
    PlanesUniform(cell, nc, nx, ny, nz, nl);
    FlattenLength(planes, p);
    FlattenIndex(planes, p, z, j);
    MulMonotone(p, 0, z);
  }

  /** Where component `c` of node `(x, y, z)` lands, with rows of `r` items and planes of `p`. */
  function ItemPos(nc: nat, r: nat, p: nat, c: int, x: int, y: int, z: int): int
  {
    z * p + y * r + x * nc + c
  }

  /** `(c, x, y, z)` comes before `(c2, x2, y2, z2)` in the loop nest: `z` outermost, then `y`,
      then `x`, the component innermost. */
  predicate VisitedBefore(c: int, x: int, y: int, z: int, c2: int, x2: int, y2: int, z2: int)
  {
    z < z2 || (z == z2 && (y < y2 || (y == y2 && (x < x2 || (x == x2 && c < c2)))))
  }

  /** The offset of a cell within its plane stays below the plane's row part. */
  lemma {:induction false} InPlane(nc: nat, nx: nat, ny: nat, r: nat, c: nat, x: nat, y: nat)
    requires r == nx * nc + 1
    requires c < nc && x < nx && y < ny
    ensures 0 <= x * nc + c < nx * nc
    ensures 0 <= y * r + (x * nc + c) < ny * r
  {
    MixedRadixBound(c, nc, x, nx);
    assert x * nc == nc * x && nx * nc == nc * nx;
    DigitOrder(r, y, x * nc + c, ny, 0);
    MulMonotone(r, 0, y);
  }

  /** Cells land in the order the loops visit them. */
  lemma {:induction false} ItemPosOrder(nc: nat, nx: nat, ny: nat, r: nat, p: nat,
                                        c: nat, x: nat, y: nat, z: nat,
                                        c2: nat, x2: nat, y2: nat, z2: nat)
    requires r == nx * nc + 1 && p == ny * r + 1
    requires c < nc && x < nx && y < ny && c2 < nc && x2 < nx && y2 < ny
    requires VisitedBefore(c, x, y, z, c2, x2, y2, z2)
    ensures ItemPos(nc, r, p, c, x, y, z) < ItemPos(nc, r, p, c2, x2, y2, z2)
  {
    var j, j2 := x * nc + c, x2 * nc + c2;
    var k, k2 := y * r + j, y2 * r + j2;
    InPlane(nc, nx, ny, r, c, x, y);
    InPlane(nc, nx, ny, r, c2, x2, y2);
    if z < z2 {
      DigitOrder(p, z, k, z2, k2);
    } else if y < y2 {
      DigitOrder(r, y, j, y2, j2);
    } else if x < x2 {
      DigitOrder(nc, x, c, x2, c2);
    }
  }

  lemma {:induction false} ItemAt<T>(cell: (int, int, int, int) -> T, nc: nat, nx: nat, ny: nat, nz: nat, nl: T,
                                     r: nat, p: nat, c: nat, x: nat, y: nat, z: nat)
    requires r == nx * nc + 1 && p == ny * r + 1
    requires c < nc && x < nx && y < ny && z < nz
    ensures 0 <= ItemPos(nc, r, p, c, x, y, z) < |Items(cell, nc, nx, ny, nz, nl)|
    ensures Items(cell, nc, nx, ny, nz, nl)[ItemPos(nc, r, p, c, x, y, z)] == cell(c, x, y, z)
  {
    var j := x * nc + c;
    var k := y * r + j;
    InPlane(nc, nx, ny, r, c, x, y);
    RowAt(cell, nc, nx, y, z, x, c);
    PlaneAt(cell, nc, nx, ny, z, nl, y, j);
    ItemsAt(cell, nc, nx, ny, nz, nl, p, z, k);
  }

  /** Row `(y, z)` ends in `nl`. */
  lemma {:induction false} RowEndAt<T>(cell: (int, int, int, int) -> T, nc: nat, nx: nat, ny: nat, nz: nat, nl: T,
                                       r: nat, p: nat, y: nat, z: nat)
    requires r == nx * nc + 1 && p == ny * r + 1
    requires y < ny && z < nz
    ensures 0 <= z * p + y * r + (r - 1) < |Items(cell, nc, nx, ny, nz, nl)|
    ensures Items(cell, nc, nx, ny, nz, nl)[z * p + y * r + (r - 1)] == nl
  {
    PlaneAt(cell, nc, nx, ny, z, nl, y, nx * nc);
    ItemsAt(cell, nc, nx, ny, nz, nl, p, z, y * r + (r - 1));
  }

  /** Plane `z` ends in one more `nl`, right after the line feed of its last row. */
  lemma {:induction false} PlaneEndAt<T>(cell: (int, int, int, int) -> T, nc: nat, nx: nat, ny: nat, nz: nat, nl: T,
                                         p: nat, z: nat)
    requires p == ny * (nx * nc + 1) + 1
    requires z < nz
    ensures 0 <= z * p + (p - 1) < |Items(cell, nc, nx, ny, nz, nl)|
    ensures Items(cell, nc, nx, ny, nz, nl)[z * p + (p - 1)] == nl
  {
    PlaneLength(cell, nc, nx, ny, z, nl);
    ItemsAt(cell, nc, nx, ny, nz, nl, p, z, p - 1);
  }

  lemma {:induction false} RowCount<T>(cell: (int, int, int, int) -> T, nc: nat, nx: nat, y: int, z: int, nl: T,
                    p: T -> bool)
    requires forall c, x :: 0 <= c < nc && 0 <= x < nx ==> p(cell(c, x, y, z))
    requires !p(nl)
    ensures CountIf(RowItems(cell, nc, nx, y, z) + [nl], p) == nx * nc
  {
    var nodes := seq(nx, x => seq(nc, c => cell(c, x, y, z)));
    forall x | 0 <= x < nx
      ensures CountIf(nodes[x], p) == nc
    {
      assert forall c :: 0 <= c < nc ==> nodes[x][c] == cell(c, x, y, z);
      CountIfAll(nodes[x], p);
    }
    CountIfFlatten(nodes, p, nc);
    CountIfAppend(RowItems(cell, nc, nx, y, z), [nl], p);
    CountIfAll([nl], p);
  }

  lemma {:induction false} PlaneCount<T>(cell: (int, int, int, int) -> T, nc: nat, nx: nat, ny: nat, z: int, nl: T,
                      p: T -> bool)
    requires forall c, x, y :: 0 <= c < nc && 0 <= x < nx && 0 <= y < ny ==> p(cell(c, x, y, z))
    requires !p(nl)
    ensures CountIf(PlaneItems(cell, nc, nx, ny, z, nl), p) == ny * (nx * nc)
  {
    var rows := Rows(cell, nc, nx, ny, z, nl);
    forall y | 0 <= y < ny
      ensures CountIf(rows[y], p) == nx * nc
    {
      RowCount(cell, nc, nx, y, z, nl, p);
    }
    CountIfFlatten(rows, p, nx * nc);
    RowsUniform(cell, nc, nx, ny, z, nl);
    CountIfAppend(Flatten(rows), [nl], p);
    CountIfAll([nl], p);
  }

  /** When every cell is counted and `nl` is not, the count is the number of cells. */
  lemma {:induction false} ItemsCount<T>(cell: (int, int, int, int) -> T, nc: nat, nx: nat, ny: nat, nz: nat, nl: T,
                      p: T -> bool)
    requires forall c, x, y, z :: 0 <= c < nc && 0 <= x < nx && 0 <= y < ny && 0 <= z < nz ==>
               p(cell(c, x, y, z))
    requires !p(nl)
    ensures CountIf(Items(cell, nc, nx, ny, nz, nl), p) == nz * (ny * (nx * nc))
  {
    var planes := seq(nz, z => PlaneItems(cell, nc, nx, ny, z, nl));
    forall z | 0 <= z < nz
      ensures CountIf(planes[z], p) == ny * (nx * nc)
    {
      PlaneCount(cell, nc, nx, ny, z, nl, p);
    }
    CountIfFlatten(planes, p, ny * (nx * nc));
  }
}

/**
  The cubie lattice: size^3 cubies keyed by cell, each carrying a sticker for
  every exterior face it touches. A sticker remembers where it was created
  (origPos, origDir) and its home colour (orig); those fields never change,
  so its grid id never changes either.
 */
module Lattice {
  import opened Cube
  import opened Grid
  import opened Seqs

  datatype Sticker = Sticker(curr: Color, orig: Color, flips: nat, origPos: Coord, origDir: Dir)

  /** A cubie: its own record of where it sits, and its stickers by current direction key. */
  datatype Cubie = Cubie(at: Coord, stickers: map<Dir, Sticker>)

  type Lattice = map<Coord, Cubie>

  predicate HasSticker(l: Lattice, a: Loc) {
    a.cell in l && a.dir in l[a.cell].stickers
  }

  function StickerAt(l: Lattice, a: Loc): Option<Sticker> {
    if HasSticker(l, a) then Some(l[a.cell].stickers[a.dir]) else None
  }

  function StickerGridId(st: Sticker, size: int): GridId {
    GridIdOf(st.orig, st.origPos, st.origDir, size)
  }

  /** The grid id of the sticker at `a`. */
  function IdAt(l: Lattice, a: Loc, size: int): GridId
    requires HasSticker(l, a)
  {
    StickerGridId(l[a.cell].stickers[a.dir], size)
  }

  function FreshSticker(c: Coord, d: Dir): Sticker {
    Sticker(FaceColor(d), FaceColor(d), 0, c, d)
  }

  function FreshStickers(c: Coord, size: nat): map<Dir, Sticker> {
    map d | d in AllDirs && OnFace(c, d, size) :: FreshSticker(c, d)
  }

  /** The solved cube: a sticker on exactly the exterior faces, in its home colour, never flipped. */
  function MakeCubies(size: nat): (l: Lattice)
    ensures l.Keys == AllCells(size)
    ensures forall a :: HasSticker(l, a) <==> Exterior(a, size)
    ensures forall a | HasSticker(l, a) ::
      var st := l[a.cell].stickers[a.dir];
      st.curr == st.orig == FaceColor(a.dir) && st.flips == 0 && st.origPos == a.cell && st.origDir == a.dir
    ensures forall c | c in l :: l[c].at == c
  {
    map c | c in AllCells(size) :: Cubie(c, FreshStickers(c, size))
  }

  // ---------------------------------------------------------------------
  // The scan order: x, then y, then z, then the cubie's direction keys

  function Row(x: int, y: int, size: nat): seq<Coord> {
    seq(size, z => Coord(x, y, z))
  }

  function Rows(x: int, n: nat, size: nat): seq<Coord> {
    if n == 0 then [] else Rows(x, n - 1, size) + Row(x, n - 1, size)
  }

  function Slabs(n: nat, size: nat): seq<Coord> {
    if n == 0 then [] else Slabs(n - 1, size) + Rows(n - 1, size, size)
  }

  /** Every cell, in the nested-loop order x, y, z. */
  function Cells(size: nat): seq<Coord> {
    Slabs(size, size)
  }

  function FilterDirs(m: map<Dir, Sticker>, c: Coord, ds: seq<Dir>): seq<Loc> {
    if ds == [] then []
    else (if ds[0] in m then [Loc(c, ds[0])] else []) + FilterDirs(m, c, ds[1..])
  }

  function CubieLocs(l: Lattice, c: Coord): seq<Loc> {
    if c in l then FilterDirs(l[c].stickers, c, DirOrder) else []
  }

  function LocsOf(l: Lattice, cells: seq<Coord>): seq<Loc> {
    if cells == [] then []
    else LocsOf(l, cells[..|cells| - 1]) + CubieLocs(l, cells[|cells| - 1])
  }

  /** Every sticker location of the lattice, in scan order. */
  function Scan(l: Lattice, size: nat): seq<Loc> {
    LocsOf(l, Cells(size))
  }

  /** The grid ids carried by the lattice's stickers. */
  function IdSet(l: Lattice, size: nat): set<GridId> {
    set a | a in Scan(l, size) && HasSticker(l, a) :: IdAt(l, a, size)
  }

  /**
    The shape every reachable lattice keeps: all cells present and
    self-located, stickers on exactly the exterior slots, and the stickers'
    grid ids are pairwise distinct and are exactly the 6 * size^2 ids.
   */
  ghost predicate Coherent(l: Lattice, size: nat) {
    && l.Keys == AllCells(size)
    && (forall c | c in l :: l[c].at == c)
    && (forall a :: HasSticker(l, a) <==> Exterior(a, size))
    && (forall a, b | HasSticker(l, a) && HasSticker(l, b) && IdAt(l, a, size) == IdAt(l, b, size) :: a == b)
    && IdSet(l, size) == AllIds(size)
  }

  // ---------------------------------------------------------------------
  // Scan facts

  lemma {:induction false} RowsMembers(x: int, n: nat, size: nat)
    ensures forall c :: c in Rows(x, n, size) <==> c.x == x && 0 <= c.y < n && 0 <= c.z < size
    ensures NoDup(Rows(x, n, size))
  {
    if n > 0 {
      RowsMembers(x, n - 1, size);
      var r := Row(x, n - 1, size);
      assert forall c :: c in r <==> c.x == x && c.y == n - 1 && 0 <= c.z < size by {
        forall c: Coord | c.x == x && c.y == n - 1 && 0 <= c.z < size ensures c in r {
          assert r[c.z] == c;
        }
      }
      NoDupConcat(Rows(x, n - 1, size), r);
    }
  }

  lemma {:induction false} SlabsMembers(n: nat, size: nat)
    ensures forall c :: c in Slabs(n, size) <==> 0 <= c.x < n && 0 <= c.y < size && 0 <= c.z < size
    ensures NoDup(Slabs(n, size))
  {
    if n > 0 {
      SlabsMembers(n - 1, size);
      RowsMembers(n - 1, size, size);
      NoDupConcat(Slabs(n - 1, size), Rows(n - 1, size, size));
    }
  }

  /** The scan visits every cell exactly once. */
  lemma CellsMembers(size: nat)
    ensures forall c :: c in Cells(size) <==> InRange(c, size)
    ensures NoDup(Cells(size))
  {
    SlabsMembers(size, size);
  }

  lemma {:induction false} FilterDirsMembers(m: map<Dir, Sticker>, c: Coord, ds: seq<Dir>)
    requires NoDup(ds)
    ensures forall a :: a in FilterDirs(m, c, ds) <==> a.cell == c && a.dir in ds && a.dir in m
    ensures NoDup(FilterDirs(m, c, ds))
  {
    if ds != [] {
      assert NoDup(ds[1..]) by {
        forall i, j | 0 <= i < j < |ds[1..]| ensures ds[1..][i] != ds[1..][j] {
          assert ds[1..][i] == ds[i + 1] && ds[1..][j] == ds[j + 1];
        }
      }
      FilterDirsMembers(m, c, ds[1..]);
      assert ds[0] !in ds[1..] by {
        forall i | 0 <= i < |ds[1..]| ensures ds[1..][i] != ds[0] {
          assert ds[1..][i] == ds[i + 1];
        }
      }
      assert forall d :: d in ds <==> d == ds[0] || d in ds[1..] by {
        assert ds == [ds[0]] + ds[1..];
      }
      NoDupConcat(if ds[0] in m then [Loc(c, ds[0])] else [], FilterDirs(m, c, ds[1..]));
    }
  }

  lemma CubieLocsMembers(l: Lattice, c: Coord)
    ensures forall a :: a in CubieLocs(l, c) <==> a.cell == c && HasSticker(l, a)
    ensures NoDup(CubieLocs(l, c))
  {
    if c in l {
      assert NoDup(DirOrder);
      assert forall d: Dir :: d in DirOrder by {
        forall d: Dir ensures d in DirOrder {
          match d
          case PX => assert DirOrder[0] == d;
          case NX => assert DirOrder[1] == d;
          case PY => assert DirOrder[2] == d;
          case NY => assert DirOrder[3] == d;
          case PZ => assert DirOrder[4] == d;
          case NZ => assert DirOrder[5] == d;
        }
      }
      FilterDirsMembers(l[c].stickers, c, DirOrder);
    }
  }

  lemma {:induction false} LocsOfMembers(l: Lattice, cells: seq<Coord>)
    ensures forall a :: a in LocsOf(l, cells) <==> a.cell in cells && HasSticker(l, a)
    ensures NoDup(cells) ==> NoDup(LocsOf(l, cells))
  {
    if cells != [] {
      var init := cells[..|cells| - 1];
      var last := cells[|cells| - 1];
      LocsOfMembers(l, init);
      CubieLocsMembers(l, last);
      assert cells == init + [last];
      if NoDup(cells) {
        assert NoDup(init) by {
          forall i, j | 0 <= i < j < |init| ensures init[i] != init[j] {
            assert init[i] == cells[i] && init[j] == cells[j];
          }
        }
        assert last !in init by {
          forall i | 0 <= i < |init| ensures init[i] != last {
            assert init[i] == cells[i];
          }
        }
        NoDupConcat(LocsOf(l, init), CubieLocs(l, last));
      }
    }
  }

  /** The scan lists exactly the stickers of in-range cells, each once. */
  lemma ScanMembers(l: Lattice, size: nat)
    ensures forall a :: a in Scan(l, size) <==> InRange(a.cell, size) && HasSticker(l, a)
    ensures NoDup(Scan(l, size))
  {
    CellsMembers(size);
    LocsOfMembers(l, Cells(size));
  }

  /** Lattices with the same cells and the same direction keys scan alike. */
  predicate SameShape(l: Lattice, l': Lattice) {
    && l.Keys == l'.Keys
    && forall c | c in l :: l[c].stickers.Keys == l'[c].stickers.Keys
  }

  lemma {:induction false} LocsOfSameShape(l: Lattice, l': Lattice, cells: seq<Coord>)
    requires SameShape(l, l')
    ensures LocsOf(l, cells) == LocsOf(l', cells)
  {
    if cells != [] {
      LocsOfSameShape(l, l', cells[..|cells| - 1]);
      var c := cells[|cells| - 1];
      if c in l {
        FilterDirsSameKeys(l[c].stickers, l'[c].stickers, c, DirOrder);
      }
    }
  }

  lemma {:induction false} FilterDirsSameKeys(m: map<Dir, Sticker>, m': map<Dir, Sticker>, c: Coord, ds: seq<Dir>)
    requires m.Keys == m'.Keys
    ensures FilterDirs(m, c, ds) == FilterDirs(m', c, ds)
  {
    if ds != [] {
      FilterDirsSameKeys(m, m', c, ds[1..]);
    }
  }

  // ---------------------------------------------------------------------
  // The solved cube

  /** The solved cube has every grid id exactly once. */
  lemma MakeCubiesCoherent(size: nat)
    ensures Coherent(MakeCubies(size), size)
  {
    var l := MakeCubies(size);
    forall a, b | HasSticker(l, a) && HasSticker(l, b) && IdAt(l, a, size) == IdAt(l, b, size)
      ensures a == b
    {
      GridIdInjective(a.cell, a.dir, b.cell, b.dir, size);
    }
    ScanMembers(l, size);
    forall g | g in IdSet(l, size) ensures g in AllIds(size) {
      var a :| a in Scan(l, size) && HasSticker(l, a) && IdAt(l, a, size) == g;
      GridRCOnFace(a.cell, a.dir, size);
      GridIndexRange(GridRC(a.cell, a.dir, size), size);
    }
    forall g | g in AllIds(size) ensures g in IdSet(l, size) {
      assert size > 0;
      var a := SlotOf(g, size);
      SlotOfSound(g, size);
      assert a in Scan(l, size);
    }
  }

  /** A coherent lattice holds exactly 6 * size^2 stickers. */
  lemma StickerCount(l: Lattice, size: nat)
    requires Coherent(l, size)
    ensures |Scan(l, size)| == 6 * (size * size)
  {
    var s := Scan(l, size);
    ScanMembers(l, size);
    CardOfNoDup(s);
    ScanIdsCard(l, size);
    AllIdsCard(size);
  }

  lemma ScanIdsCard(l: Lattice, size: nat)
    requires forall a, b | HasSticker(l, a) && HasSticker(l, b) && IdAt(l, a, size) == IdAt(l, b, size) :: a == b
    ensures |IdSet(l, size)| == |set a | a in Scan(l, size)|
  {
    var locs := set a | a in Scan(l, size);
    ScanMembers(l, size);
    var f := (a: Loc) => if HasSticker(l, a) then IdAt(l, a, size) else GridId(0, 0);
    CardOfInjectiveImage(locs, f);
    assert Image(locs, f) == IdSet(l, size) by {
      forall g | g in IdSet(l, size) ensures g in Image(locs, f) {
        var a :| a in Scan(l, size) && HasSticker(l, a) && IdAt(l, a, size) == g;
        assert f(a) == g;
      }
    }
  }

  /** The solved cube holds 6 * size^2 stickers. */
  lemma MakeCubiesStickerCount(size: nat)
    ensures |Scan(MakeCubies(size), size)| == 6 * (size * size)
  {
    MakeCubiesCoherent(size);
    StickerCount(MakeCubies(size), size);
  }
}

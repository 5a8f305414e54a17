/** The 32-byte cells of a fast page (memory/ummalloc_alloc.h): a counter and two bitmaps. */
module FastCells {
  import opened Blocks
  import opened SlotIndex

  /** map[0], map[1] and map[2] */
  datatype Page = Page(count: nat, map1: nat, map2: nat)

  datatype Taken = NoCell | GotCell(cell: nat, page: Page)

  const CELLS := 128

  /** The number of set bits. */
  function Ones(m: nat): nat {
    if m == 0 then 0 else m % 2 + Ones(m / 2)
  }

  ghost predicate PageOk(p: Page) {
    p.map1 < WORD && p.map2 < WORD && p.count == Ones(p.map1) + Ones(p.map2)
  }

  predicate Available(p: Page, i: nat) {
    if i < 64 then Bit(p.map1, i) else i < CELLS && Bit(p.map2, i - 64)
  }

  /** fast_bin_reserve's fresh page. */
  function FullPage(): Page {
    Page(CELLS, WORD - 1, WORD - 1)
  }

  /** fast_allocate's choice of a cell; NoCell where it gives up. */
  function TakeCell(p: Page): (t: Taken)
    requires p.map1 < WORD && p.map2 < WORD
  {
    if p.count == 0 then NoCell
    else if p.map1 != 0 then
      Log2FloorIs(p.map1);
      var high := Log2Floor(p.map1);
      GotCell(high, Page(p.count - 1, ClearBit(p.map1, high), p.map2))
    else if p.map2 != 0 then
      Log2FloorIs(p.map2);
      var high := Log2Floor(p.map2);
      GotCell(high + 64, Page(p.count - 1, p.map1, ClearBit(p.map2, high)))
    else NoCell
  }

  lemma {:induction false} OnesOfClear(m: nat, i: nat)
    requires Bit(m, i)
    ensures Ones(ClearBit(m, i)) == Ones(m) - 1
  {
    if i == 0 {
      OnesDouble(m / 2, 0);
      assert ClearBit(m, 0) == 2 * (m / 2);
    } else {
      OnesOfClear(m / 2, i - 1);
      OnesDouble(ClearBit(m / 2, i - 1), m % 2);
    }
  }

  lemma OnesDouble(c: nat, b: nat)
    requires b < 2
    ensures Ones(2 * c + b) == Ones(c) + b
  {
    assert (2 * c + b) / 2 == c && (2 * c + b) % 2 == b;
  }

  lemma {:induction false} OnesZero(m: nat)
    ensures Ones(m) == 0 <==> m == 0
  {
    if m > 0 {
      OnesZero(m / 2);
    }
  }

  lemma {:induction false} OnesFull(n: nat, i: nat)
    ensures Two(n) > 0 && Ones(Two(n) - 1) == n && (i < n ==> Bit(Two(n) - 1, i))
  {
    if n > 0 {
      assert Two(n) == 2 * Two(n - 1);
      if i > 0 {
        OnesFull(n - 1, i - 1);
      } else {
        OnesFull(n - 1, 0);
      }
      assert (Two(n) - 1) / 2 == Two(n - 1) - 1;
    }
  }

  /** Cell i is the highest available one of the first bitmap that has any. */
  ghost predicate HighestCell(p: Page, i: nat) {
    && i < CELLS && Available(p, i) && (forall j :: i < j < (if i < 64 then 64 else CELLS) ==> !Available(p, j))
    && (i >= 64 ==> forall j :: 0 <= j < 64 ==> !Available(p, j))
  }

  /** A page with a positive counter gives an available cell, and only that one; the counter
      stays the number of available cells. */
  lemma TakeCellOk(p: Page)
    requires PageOk(p) && p.count > 0
    ensures var t := TakeCell(p);
            && t.GotCell? && HighestCell(p, t.cell) && PageOk(t.page) && t.page.count == p.count - 1
            && forall j :: 0 <= j < CELLS ==> (Available(t.page, j) <==> Available(p, j) && j != t.cell)
  {
    hide Log2Floor; hide Bit; hide ClearBit; hide Ones;
    OnesZero(p.map1);
    OnesZero(p.map2);
    var m := if p.map1 != 0 then p.map1 else p.map2;
    Log2FloorIs(m);
    var high := Log2Floor(m);
    OnesOfClear(m, high);
    forall j: nat | high < j
      ensures !Bit(m, j)
    {
      NoBitAbove(m, j);
    }
    forall j: nat | p.map1 == 0
      ensures !Bit(p.map1, j)
    {
      NoBitAbove(p.map1, j);
    }
    forall j: nat
      ensures Bit(ClearBit(m, high), j) <==> j != high && Bit(m, j)
    {
      BitOfClear(m, high, j);
    }
  }

  lemma FullPageOk()
    ensures PageOk(FullPage()) && forall j :: 0 <= j < CELLS ==> Available(FullPage(), j)
  {
    WordIs();
    hide Bit; hide Ones; hide Two;
    OnesFull(64, 0);
    forall j | 0 <= j < CELLS
      ensures Available(FullPage(), j)
    {
      OnesFull(64, if j < 64 then j else j - 64);
    }
  }

  /** Different cells of a page do not overlap, and lie between its header and its end. */
  lemma CellsApart(a: nat, i: nat, j: nat)
    requires i < CELLS && j < CELLS && i != j
    ensures a + 48 <= CellAt(a, i) && CellAt(a, i) + 32 <= a + 4144
    ensures CellAt(a, i) + 32 <= CellAt(a, j) || CellAt(a, j) + 32 <= CellAt(a, i)
  {
  }

  /** The address of cell i of the page at a: past the chunk header, the list node and the
      three words. */
  function CellAt(a: nat, i: nat): nat {
    a + 48 + 32 * i
  }
}

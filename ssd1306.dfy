/**
 * The host simulation of the display controller: a frame buffer of 16
 * pages of 128 columns, a page address and a column address that each
 * data transfer advances.
 */
module Ssd1306 {
  import opened Base

  const PAGES: nat := 16
  const COLUMNS: nat := 128
  /** The column after which the simulation moves to the next page. */
  const WRAP_COLUMN: nat := 16

  /** The page and column after a transfer at (`page`, `column`), in 8-bit arithmetic. */
  function Advance(page: u8, column: u8): (r: (u8, u8))
    ensures column as int + 1 == WRAP_COLUMN ==> r == (ToU8(page as int + 1), 0)
    ensures column as int + 1 != WRAP_COLUMN ==> r == (page, ToU8(column as int + 1))
  {
    var c := ToU8(column as int + 1);
    if c as int == WRAP_COLUMN then (ToU8(page as int + 1), 0) else (page, c)
  }

  /** The position after `n` transfers. */
  function AdvanceBy(page: u8, column: u8, n: nat): (u8, u8)
    decreases n
  {
    if n == 0 then (page, column) else
      var p := Advance(page, column);
      AdvanceBy(p.0, p.1, n - 1)
  }

  /** From the start of a page, the transfers fill the page's first 16 columns and then go on with the next page. */
  lemma {:induction false} AdvanceByFromPageStart(page: u8, n: nat)
    requires page as int + n / WRAP_COLUMN < 256
    ensures AdvanceBy(page, 0, n) == ((page as int + n / WRAP_COLUMN) as u8, (n % WRAP_COLUMN) as u8)
    decreases n
  {
    AdvanceWithinPage(page, 0, n % WRAP_COLUMN);
    if n >= WRAP_COLUMN {
      AdvanceSplit(page, 0, WRAP_COLUMN, n - WRAP_COLUMN);
      AdvanceWithinPage(page, 0, WRAP_COLUMN - 1);
      assert AdvanceBy(page, 0, WRAP_COLUMN) == Advance(page, (WRAP_COLUMN - 1) as u8) by {
        AdvanceSplit(page, 0, WRAP_COLUMN - 1, 1);
      }
      AdvanceByFromPageStart(page + 1, n - WRAP_COLUMN);
    }
  }

  /** Transfers within a page only move the column. */
  lemma {:induction false} AdvanceWithinPage(page: u8, column: u8, n: nat)
    requires column as int + n < WRAP_COLUMN
    ensures AdvanceBy(page, column, n) == (page, (column as int + n) as u8)
    decreases n
  {
    if n > 0 {
      AdvanceWithinPage(page, column + 1, n - 1);
    }
  }

  /** `m + n` transfers are `m` transfers, then `n` more. */
  lemma {:induction false} AdvanceSplit(page: u8, column: u8, m: nat, n: nat)
    ensures AdvanceBy(page, column, m + n) == AdvanceBy(AdvanceBy(page, column, m).0, AdvanceBy(page, column, m).1, n)
    decreases m
  {
    if m > 0 {
      var p := Advance(page, column);
      AdvanceSplit(p.0, p.1, m - 1, n);
    }
  }

  class Display {
    /** `fb` */
    const fb: array2<u8>
    /** `addr`: the page address. */
    var page: u8
    /** `col`: the column address. */
    var column: u8

    predicate Valid()
    {
      fb.Length0 == PAGES && fb.Length1 == COLUMNS
    }

    /** The position is inside the frame buffer: the source indexes it unchecked. */
    predicate InFrame()
      reads this
    {
      (page as int) < PAGES && (column as int) < COLUMNS
    }

    /** Static storage: the frame buffer and both addresses are zero. */
    constructor()
      ensures Valid() && fresh(fb) && page == 0 && column == 0
      ensures forall p, c :: 0 <= p < PAGES && 0 <= c < COLUMNS ==> fb[p, c] == 0
    {
      fb := new u8[PAGES, COLUMNS]((_, _) => 0);
      page, column := 0, 0;
    }

    /** `ssd1306_init`: the frame buffer is cleared. */
    method Init()
      requires Valid()
      modifies fb
      ensures forall p, c :: 0 <= p < PAGES && 0 <= c < COLUMNS ==> fb[p, c] == 0
    {
      var p := 0;
      while p < PAGES
        invariant 0 <= p <= PAGES
        invariant forall i, j :: 0 <= i < p && 0 <= j < COLUMNS ==> fb[i, j] == 0
      {
        var c := 0;
        while c < COLUMNS
          invariant 0 <= c <= COLUMNS
          invariant forall i, j :: 0 <= i < p && 0 <= j < COLUMNS ==> fb[i, j] == 0
          invariant forall j :: 0 <= j < c ==> fb[p, j] == 0
        {
          fb[p, c] := 0;
          c := c + 1;
        }
        p := p + 1;
      }
    }

    /** `ssd1306_set_page_address`: only the low four bits are kept. */
    method SetPageAddress(address: u8)
      modifies this`page
      ensures page as int == address as int % 16 && (page as int) < PAGES
      ensures address as int < PAGES ==> page == address
    {
      // `address & 0x0F`, written as the remainder it equals
      page := (address as int % 16) as u8;
    }

    /** `ssd1306_set_column_address`: only the low seven bits are kept. */
    method SetColumnAddress(address: u8)
      modifies this`column
      ensures column as int == address as int % 128 && (column as int) < COLUMNS
      ensures address as int < COLUMNS ==> column == address
    {
      // `address & 0x7F`, written as the remainder it equals
      column := (address as int % 128) as u8;
    }

    /** `ssd1306_write_data(data)`: stores at the position, which then advances; the rest of the frame buffer is kept. */
    method WriteData(data: u8)
      requires Valid() && InFrame()
      modifies fb, this`page, this`column
      ensures fb[old(page) as int, old(column) as int] == data
      ensures forall p, c ::
        (0 <= p < PAGES && 0 <= c < COLUMNS && (p, c) != (old(page) as int, old(column) as int) ==> fb[p, c] == old(fb[p, c]))
      ensures (page, column) == Advance(old(page), old(column))
    {
      fb[page, column] := data;
      column := ToU8(column as int + 1);
      if column as int == WRAP_COLUMN {
        column := 0;
        page := ToU8(page as int + 1);
      }
    }

    /** `ssd1306_read_data()`: the byte at the position, which then advances; nothing else changes. */
    method ReadData() returns (value: u8)
      requires Valid() && InFrame()
      modifies this`page, this`column
      ensures value == fb[old(page) as int, old(column) as int]
      ensures (page, column) == Advance(old(page), old(column))
    {
      value := fb[page, column];
      column := ToU8(column as int + 1);
      if column as int == WRAP_COLUMN {
        column := 0;
        page := ToU8(page as int + 1);
      }
    }
  }
}

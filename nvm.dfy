/**
 * The simulated EEPROM of the host build: 2048 bytes of memory, written
 * one 32-byte page at a time through a page buffer, as the device's
 * non-volatile memory controller does. A page is erased to 0xFF.
 */
module Nvm {
  import opened Base

  const EEPROM_SIZE: nat := 2048
  const EEPROM_PAGE_SIZE: nat := 32
  /** The number of pages. */
  const EEPROM_PAGES: nat := 64
  const ERASED: u8 := 0xFF

  /** `memory` with the page `page` replaced by `content`. */
  function WithPage(memory: seq<u8>, page: nat, content: seq<u8>): (r: seq<u8>)
    requires |memory| == EEPROM_SIZE && page < EEPROM_PAGES && |content| == EEPROM_PAGE_SIZE
    ensures |r| == EEPROM_SIZE
    ensures forall k :: 0 <= k < page * EEPROM_PAGE_SIZE ==> r[k] == memory[k]
    ensures forall k :: page * EEPROM_PAGE_SIZE + EEPROM_PAGE_SIZE <= k < EEPROM_SIZE ==> r[k] == memory[k]
    ensures r[page * EEPROM_PAGE_SIZE..page * EEPROM_PAGE_SIZE + EEPROM_PAGE_SIZE] == content
  {
    memory[..page * EEPROM_PAGE_SIZE] + content + memory[page * EEPROM_PAGE_SIZE + EEPROM_PAGE_SIZE..]
  }

  class Eeprom {
    /** `eeprom_memory` */
    const memory: array<u8>
    /** `eeprom_page_buffer` */
    const pageBuffer: array<u8>

    predicate Valid()
    {
      memory.Length == EEPROM_SIZE && pageBuffer.Length == EEPROM_PAGE_SIZE && memory != pageBuffer
    }

    /** Both are zero before `nvm_init`, as static storage is. */
    constructor()
      ensures Valid() && fresh(memory) && fresh(pageBuffer)
      ensures forall k :: 0 <= k < EEPROM_SIZE ==> memory[k] == 0
    {
      memory := new u8[EEPROM_SIZE](_ => 0);
      pageBuffer := new u8[EEPROM_PAGE_SIZE](_ => 0);
    }

    /** `nvm_init`: every byte reads 0xFF. */
    method Init()
      requires Valid()
      modifies memory
      ensures memory[..] == Repeat(ERASED, EEPROM_SIZE)
    {
      var i := 0;
      while i < memory.Length
        invariant 0 <= i <= memory.Length
        invariant forall k :: 0 <= k < i ==> memory[k] == ERASED
      {
        memory[i] := ERASED;
        i := i + 1;
      }
    }

    /** `nvm_eeprom_load_page_to_buffer(values)`: the first page-size bytes of `values` go to the page buffer. */
    method LoadPageToBuffer(values: seq<u8>)
      requires Valid() && |values| >= EEPROM_PAGE_SIZE
      modifies pageBuffer
      ensures pageBuffer[..] == values[..EEPROM_PAGE_SIZE]
    {
      var i := 0;
      while i < EEPROM_PAGE_SIZE
        invariant 0 <= i <= EEPROM_PAGE_SIZE
        invariant pageBuffer[..i] == values[..i]
      {
        pageBuffer[i] := values[i];
        i := i + 1;
        assert pageBuffer[..i] == pageBuffer[..i - 1] + [values[i - 1]];
      }
    }

    /** `nvm_eeprom_atomic_write_page(page)`: the page buffer is copied to the page, and nothing else changes. */
    method AtomicWritePage(page: nat)
      requires Valid() && page < EEPROM_PAGES
      modifies memory
      ensures memory[..] == WithPage(old(memory[..]), page, pageBuffer[..])
    {
      var base := EEPROM_PAGE_SIZE * page;
      var i := 0;
      while i < EEPROM_PAGE_SIZE
        invariant 0 <= i <= EEPROM_PAGE_SIZE
        invariant forall k :: 0 <= k < EEPROM_SIZE && !(base <= k < base + i) ==> memory[k] == old(memory[k])
        invariant forall k :: base <= k < base + i ==> memory[k] == pageBuffer[k - base]
      {
        memory[base + i] := pageBuffer[i];
        i := i + 1;
      }
      assert memory[..] == WithPage(old(memory[..]), page, pageBuffer[..]);
    }

    /** `nvm_eeprom_erase_page(page)`: every byte of the page reads 0xFF, and nothing else changes. */
    method ErasePage(page: nat)
      requires Valid() && page < EEPROM_PAGES
      modifies memory
      ensures memory[..] == WithPage(old(memory[..]), page, Repeat(ERASED, EEPROM_PAGE_SIZE))
    {
      var base := EEPROM_PAGE_SIZE * page;
      var i := 0;
      while i < EEPROM_PAGE_SIZE
        invariant 0 <= i <= EEPROM_PAGE_SIZE
        invariant forall k :: 0 <= k < EEPROM_SIZE && !(base <= k < base + i) ==> memory[k] == old(memory[k])
        invariant forall k :: base <= k < base + i ==> memory[k] == ERASED
      {
        memory[base + i] := ERASED;
        i := i + 1;
      }
      assert memory[..] == WithPage(old(memory[..]), page, Repeat(ERASED, EEPROM_PAGE_SIZE));
    }
  }

  /** Writing a page leaves every other page as it was; the page itself reads back by `WithPage`. */
  lemma WithPageOther(memory: seq<u8>, page: nat, content: seq<u8>, other: nat)
    requires |memory| == EEPROM_SIZE && page < EEPROM_PAGES && |content| == EEPROM_PAGE_SIZE
    requires other < EEPROM_PAGES && other != page
    ensures WithPage(memory, page, content)[other * EEPROM_PAGE_SIZE..other * EEPROM_PAGE_SIZE + EEPROM_PAGE_SIZE]
         == memory[other * EEPROM_PAGE_SIZE..other * EEPROM_PAGE_SIZE + EEPROM_PAGE_SIZE]
  {
    var r := WithPage(memory, page, content);
    var b := other * EEPROM_PAGE_SIZE;
    if other < page {
      assert b + EEPROM_PAGE_SIZE <= page * EEPROM_PAGE_SIZE;
    } else {
      assert page * EEPROM_PAGE_SIZE + EEPROM_PAGE_SIZE <= b;
    }
    assert forall k :: b <= k < b + EEPROM_PAGE_SIZE ==> r[k] == memory[k];
  }
}

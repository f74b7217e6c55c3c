/**
 * The program manager: ten program slots kept in the EEPROM, an occupancy
 * map saying which slots hold a valid record, and the active program the
 * sequencer runs. A slot's record takes two EEPROM pages: a marker byte,
 * the program text (at most 60 characters, zero padded), a spare byte and
 * a 16-bit CRC of the first 62 bytes.
 *
 * The CRC routine of the device (`crc_io_checksum`) is a parameter: the
 * model does not fix its polynomial.
 */
module ProgramManagerModel {
  import opened Base
  import opened ProgramModel
  import opened CommandParser
  import opened Nvm

  /** The number of program slots (the width of the occupancy bitset). */
  const SLOTS: nat := 10
  /** The longest program text a slot keeps: two pages less marker, spare and CRC. */
  const STORAGE_MAX_LENGTH: nat := EEPROM_PAGE_SIZE * 2 - 4
  /** The size of a slot's record: two pages. */
  const RECORD_SIZE: nat := 64
  /** The part of the record the CRC covers: everything but the CRC. */
  const DATA_SIZE: nat := 62
  /** The marker `write_pgm_at` stores ('A'). */
  const MARKER: u8 := 65
  /** The marker of a program that starts on power-up ('*'). */
  const AUTO_MARKER: u8 := 42

  /** The program `load` builds for an empty slot. */
  const DEFAULT_PROGRAM: seq<Command> := [Command(Open, 60000), Command(Close, 5000), Command(Loop, 0)]

  /** The characters of a C string kept in memory: the bytes before the first zero byte. */
  function CString(bytes: seq<u8>): (r: string)
    ensures |r| <= |bytes|
    ensures forall k :: 0 <= k < |r| ==> bytes[k] != 0 && r[k] == bytes[k] as int as char
    ensures |r| < |bytes| ==> bytes[|r|] == 0
  {
    if bytes == [] || bytes[0] == 0 then [] else [bytes[0] as int as char] + CString(bytes[1..])
  }

  /** Every character fits a `char` of 8 bits. */
  predicate Bytes(text: string)
  {
    forall k :: 0 <= k < |text| ==> text[k] as int < 256
  }

  function ToBytes(text: string): (r: seq<u8>)
    requires Bytes(text)
    ensures |r| == |text|
    ensures forall k :: 0 <= k < |r| ==> r[k] as int == text[k] as int
  {
    if text == [] then [] else [text[0] as int as u8] + ToBytes(text[1..])
  }

  /** What `strncpy` keeps of the text: at most `STORAGE_MAX_LENGTH` characters before the first NUL. */
  function StoredText(text: string): (r: string)
    ensures '\0' !in r && r <= CText(text)
    ensures |r| == Min(|CText(text)|, STORAGE_MAX_LENGTH)
  {
    Clip(CText(text), STORAGE_MAX_LENGTH)
  }

  /** The part of the record the CRC covers: the marker, the padded text and the spare byte. */
  function RecordData(text: string): (r: seq<u8>)
    requires Bytes(text)
    ensures |r| == DATA_SIZE && r[0] == MARKER
    ensures r[1..1 + |StoredText(text)|] == ToBytes(StoredText(text))
    ensures forall k :: 1 + |StoredText(text)| <= k < DATA_SIZE ==> r[k] == 0
  {
    var stored := StoredText(text);
    var bytes := ToBytes(stored);
    var pad := Repeat(0, STORAGE_MAX_LENGTH - |stored|) + [0];
    assert forall k :: 0 <= k < |pad| ==> pad[k] == 0;
    var r := [MARKER] + bytes + pad;
    assert r[1..1 + |bytes|] == bytes;
    assert forall k :: 1 + |bytes| <= k < |r| ==> r[k] == pad[k - 1 - |bytes|];
    r
  }

  /** The 16-bit value of two bytes, least significant first. */
  function U16At(bytes: seq<u8>, at: nat): nat
    requires at + 2 <= |bytes|
  {
    bytes[at] as int + 256 * bytes[at + 1] as int
  }

  /** The record `write_pgm_at` writes for `text`: the data, then its CRC as a 16-bit value. */
  function Record(text: string, checksum: seq<u8> -> nat): (r: seq<u8>)
    requires Bytes(text)
    ensures |r| == RECORD_SIZE && r[..DATA_SIZE] == RecordData(text)
    ensures U16At(r, DATA_SIZE) == checksum(RecordData(text)) % TWO_POW_16
  {
    var crc := checksum(RecordData(text)) % TWO_POW_16;
    RecordData(text) + [(crc % 256) as u8, (crc / 256) as u8]
  }

  /** The first byte of slot `index`'s record: two pages per slot. */
  function PgmAt(index: nat): nat
  {
    RECORD_SIZE * index
  }

  /** A slot whose marker is not erased and whose CRC matches: the constructor marks it occupied. */
  predicate SlotValid(memory: seq<u8>, index: nat, checksum: seq<u8> -> nat)
    requires |memory| == EEPROM_SIZE && index < SLOTS
  {
    var at := PgmAt(index);
    memory[at] != ERASED && checksum(memory[at..at + DATA_SIZE]) % TWO_POW_16 == U16At(memory, at + DATA_SIZE)
  }

  /** A valid slot marked to start on power-up. */
  predicate AutoSlot(memory: seq<u8>, index: nat, checksum: seq<u8> -> nat)
    requires |memory| == EEPROM_SIZE && index < SLOTS
  {
    SlotValid(memory, index, checksum) && memory[PgmAt(index)] == AUTO_MARKER
  }

  /** The first `n` bits of the map tell the valid slots. */
  predicate ScannedUpTo(occupancy: seq<bool>, memory: seq<u8>, n: nat, checksum: seq<u8> -> nat)
    requires |occupancy| == SLOTS && |memory| == EEPROM_SIZE && n <= SLOTS
  {
    (forall k :: 0 <= k < n ==> (occupancy[k] <==> SlotValid(memory, k, checksum)))
    && (forall k :: n <= k < SLOTS ==> !occupancy[k])
  }

  /** Some slot before `n` starts automatically. */
  predicate AutoBefore(memory: seq<u8>, n: nat, checksum: seq<u8> -> nat)
    requires |memory| == EEPROM_SIZE && n <= SLOTS
  {
    exists k :: 0 <= k < n && AutoSlot(memory, k, checksum)
  }

  /** `get_pgm(index)`: the text after the slot's marker, up to the first zero byte. */
  function SlotText(memory: seq<u8>, index: nat): string
    requires |memory| == EEPROM_SIZE && index < SLOTS
  {
    CString(memory[PgmAt(index) + 1..])
  }

  /** What `load(index)` makes of an occupied slot: the parse of its text by the silent parser. */
  function SlotParse(memory: seq<u8>, index: nat): Parsed
    requires |memory| == EEPROM_SIZE && index < SLOTS
  {
    ParseSpec(0, 0, SlotText(memory, index))
  }

  /** The last slot before `n` that starts automatically: the scan loads each in turn, so its program stays active. */
  function LastAuto(memory: seq<u8>, n: nat, checksum: seq<u8> -> nat): (r: Option<nat>)
    requires |memory| == EEPROM_SIZE && n <= SLOTS
    ensures r.Some? ==> r.value < n && AutoSlot(memory, r.value, checksum)
    ensures r.Some? ==> forall k :: r.value < k < n ==> !AutoSlot(memory, k, checksum)
    ensures r.None? <==> !AutoBefore(memory, n, checksum)
  {
    if n == 0 then None
    else if AutoSlot(memory, n - 1, checksum) then Some(n - 1)
    else
      var r := LastAuto(memory, n - 1, checksum);
      assert AutoBefore(memory, n, checksum) ==> AutoBefore(memory, n - 1, checksum);
      r
  }

  /** `memory` with slot `index`'s record replaced by `record`. */
  function WithRecord(memory: seq<u8>, index: nat, record: seq<u8>): (r: seq<u8>)
    requires |memory| == EEPROM_SIZE && index < SLOTS && |record| == RECORD_SIZE
    ensures |r| == EEPROM_SIZE
  {
    memory[..PgmAt(index)] + record + memory[PgmAt(index) + RECORD_SIZE..]
  }

  class ProgramManager {
    const eeprom: Eeprom
    /** `active_program` */
    const active: Program
    /** The parser `load` uses; its error string has no capacity. */
    const parser: Parser
    /** `crc_io_checksum` */
    const checksum: seq<u8> -> nat
    /** `occupancy_map` */
    var occupancy: seq<bool>
    /** `auto_start` */
    var autoStart: bool
    /** `selected`: the slot chosen to run. */
    var selected: u8

    predicate Valid()
      reads this, active
    {
      eeprom.Valid() && parser.live == active && parser.errCap == 0 && |occupancy| == SLOTS && active.Valid()
    }

    /**
     * Scans the ten slots: a slot is occupied when its record is valid, and
     * a valid record marked '*' is loaded and starts automatically. Slot 0
     * is occupied whatever the memory holds.
     */
    constructor(eeprom: Eeprom, checksum: seq<u8> -> nat)
      requires eeprom.Valid()
      ensures Valid() && this.eeprom == eeprom && this.checksum == checksum
      ensures fresh(active) && fresh(parser) && selected == 0
      ensures occupancy[0]
      ensures forall i :: 1 <= i < SLOTS ==> (occupancy[i] <==> SlotValid(eeprom.memory[..], i, checksum))
      ensures autoStart <==> exists i :: 0 <= i < SLOTS && AutoSlot(eeprom.memory[..], i, checksum)
      ensures LastAuto(eeprom.memory[..], SLOTS, checksum).None? ==> active.items == []
      ensures LastAuto(eeprom.memory[..], SLOTS, checksum).Some? ==>
        active.items == SlotParse(eeprom.memory[..], LastAuto(eeprom.memory[..], SLOTS, checksum).value).state.items
    {
      this.eeprom := eeprom;
      this.checksum := checksum;
      var program := new Program();
      active := program;
      parser := new Parser(program, 0);
      occupancy := Repeat(false, SLOTS);
      autoStart := false;
      selected := 0;
      new;
      var i := 0;
      while i < SLOTS
        invariant 0 <= i <= SLOTS && Valid() && fresh(active) && fresh(parser) && selected == 0
        invariant ScannedUpTo(occupancy, eeprom.memory[..], i, checksum)
        invariant autoStart <==> AutoBefore(eeprom.memory[..], i, checksum)
        invariant LastAuto(eeprom.memory[..], i, checksum).None? ==> active.items == []
        invariant LastAuto(eeprom.memory[..], i, checksum).Some? ==>
          active.items == SlotParse(eeprom.memory[..], LastAuto(eeprom.memory[..], i, checksum).value).state.items
      {
        ScanSlot(i);
        i := i + 1;
      }
      occupancy := occupancy[0 := true];
      assert AutoBefore(eeprom.memory[..], SLOTS, checksum) ==> exists i :: 0 <= i < SLOTS && AutoSlot(eeprom.memory[..], i, checksum);
    }

    /** One turn of the constructor's scan: slot `i` is marked when its record is valid, and loaded when it starts automatically. */
    method ScanSlot(i: nat)
      requires Valid() && i < SLOTS && ScannedUpTo(occupancy, eeprom.memory[..], i, checksum)
      modifies this`occupancy, this`autoStart, parser, active
      ensures Valid()
      ensures ScannedUpTo(occupancy, eeprom.memory[..], i + 1, checksum)
      ensures autoStart == (old(autoStart) || AutoSlot(eeprom.memory[..], i, checksum))
      ensures AutoSlot(eeprom.memory[..], i, checksum) ==> active.items == SlotParse(eeprom.memory[..], i).state.items
      ensures !AutoSlot(eeprom.memory[..], i, checksum) ==> active.items == old(active.items)
    {
      var at := PgmAt(i);
      if eeprom.memory[at] != ERASED {
        var crc := checksum(eeprom.memory[at..at + DATA_SIZE]) % TWO_POW_16;
        var actual := eeprom.memory[at + DATA_SIZE] as int + 256 * eeprom.memory[at + DATA_SIZE + 1] as int;
        if crc == actual {
          occupancy := occupancy[i := true];
          if eeprom.memory[at] == AUTO_MARKER {
            var started := Load(i);
            autoStart := true;
          }
        }
      }
    }

    /** `get_next(from)`: the first occupied slot after `from`, or `from` when there is none. */
    method GetNext(from: nat) returns (r: nat)
      requires Valid() && from < SLOTS
      ensures (exists k :: from < k < SLOTS && occupancy[k]) ==>
        (from < r < SLOTS && occupancy[r] && forall k :: from < k < r ==> !occupancy[k])
      ensures (forall k :: from < k < SLOTS ==> !occupancy[k]) ==> r == from
    {
      var pos := from + 1;
      while pos != SLOTS
        invariant from < pos <= SLOTS
        invariant forall k :: from < k < pos ==> !occupancy[k]
        decreases SLOTS - pos
      {
        if occupancy[pos] {
          return pos;
        }
        pos := pos + 1;
      }
      return from;
    }

    /** `get_prev(from)`: the last occupied slot before `from`, or 0 when there is none. */
    method GetPrev(from: nat) returns (r: nat)
      requires Valid() && from < SLOTS
      ensures (exists k :: 0 <= k < from && occupancy[k]) ==>
        (r < from && occupancy[r] && forall k :: r < k < from ==> !occupancy[k])
      ensures (forall k :: 0 <= k < from ==> !occupancy[k]) ==> r == 0
    {
      var pos: nat := from;
      while pos != 0
        invariant pos <= from
        invariant forall k :: pos <= k < from ==> !occupancy[k]
      {
        pos := pos - 1;
        if occupancy[pos] {
          return pos;
        }
      }
      return 0;
    }

    /**
     * `write_pgm_at(pos, text)`, as evidently intended: the record goes to
     * the slot's two pages, and the slot's own bit is marked.
     */
    method WritePgmAt(pos: nat, text: string)
      requires Valid() && pos < SLOTS && Bytes(text)
      modifies this`occupancy, eeprom.memory, eeprom.pageBuffer
      ensures Valid()
      ensures occupancy == old(occupancy)[pos := true]
      ensures eeprom.memory[..] == WithRecord(old(eeprom.memory[..]), pos, Record(text, checksum))
    {
      var buffer := Record(text, checksum);
      var page := 2 * pos;
      ghost var before := eeprom.memory[..];
      eeprom.LoadPageToBuffer(buffer);
      eeprom.AtomicWritePage(page);
      eeprom.LoadPageToBuffer(buffer[EEPROM_PAGE_SIZE..]);
      eeprom.AtomicWritePage(page + 1);
      TwoPages(before, pos, buffer);
      occupancy := occupancy[pos := true];
    }

    /** `load(index)`: parses an occupied slot's text into the active program, or builds the default program. */
    method Load(index: nat) returns (startPublished: bool)
      requires Valid() && index < SLOTS
      modifies parser, active
      ensures Valid()
      ensures occupancy[index] ==>
        (active.items == SlotParse(eeprom.memory[..], index).state.items
         && (startPublished <==> SlotParse(eeprom.memory[..], index).result == ProgramParsed))
      ensures !occupancy[index] ==> active.items == DEFAULT_PROGRAM && !startPublished
    {
      if occupancy[index] {
        var text := SlotText(eeprom.memory[..], index);
        ParseIgnoresDistance(0, parser.distance, 0, text);
        var res := parser.Parse(text);
        startPublished := res == ProgramParsed;
      } else {
        active.Clear();
        active.PushBack(Command(Open, 60000));
        active.PushBack(Command(Close, 5000));
        active.PushBack(Command(Loop, 0));
        startPublished := false;
      }
    }

    /**
     * `load(pgm)`, as evidently intended: the active program becomes a
     * copy of `pgm`, and the sequencer is told to start.
     */
    method LoadProgram(pgm: seq<Command>) returns (startPublished: bool)
      requires Valid() && |pgm| <= MAX_ITEMS
      modifies active
      ensures Valid() && active.items == pgm && startPublished
    {
      active.Assign(pgm);
      startPublished := true;
    }

    /** `erase(index)`: the record's first page is erased and the slot's bit cleared. */
    method Erase(index: nat)
      requires Valid() && index < SLOTS
      modifies this`occupancy, eeprom.memory
      ensures Valid()
      ensures occupancy == old(occupancy)[index := false]
      ensures eeprom.memory[..] == WithPage(old(eeprom.memory[..]), 2 * index, Repeat(ERASED, EEPROM_PAGE_SIZE))
    {
      eeprom.ErasePage(2 * index);
      occupancy := occupancy[index := false];
    }
  }

  /** Writing the record's two halves to the slot's two pages writes the record to the slot. */
  lemma TwoPages(memory: seq<u8>, index: nat, record: seq<u8>)
    requires |memory| == EEPROM_SIZE && index < SLOTS && |record| == RECORD_SIZE
    ensures WithPage(WithPage(memory, 2 * index, record[..EEPROM_PAGE_SIZE]), 2 * index + 1, record[EEPROM_PAGE_SIZE..][..EEPROM_PAGE_SIZE])
         == WithRecord(memory, index, record)
  {
    var m1 := WithPage(memory, 2 * index, record[..EEPROM_PAGE_SIZE]);
    var m2 := WithPage(m1, 2 * index + 1, record[EEPROM_PAGE_SIZE..][..EEPROM_PAGE_SIZE]);
    var w := WithRecord(memory, index, record);
    var at := PgmAt(index);
    forall k | 0 <= k < EEPROM_SIZE
      ensures m2[k] == w[k]
    {
      if k < at {
      } else if k < at + EEPROM_PAGE_SIZE {
        assert m1[at..at + EEPROM_PAGE_SIZE][k - at] == m1[k];
      } else if k < at + RECORD_SIZE {
        assert m2[at + EEPROM_PAGE_SIZE..at + RECORD_SIZE][k - at - EEPROM_PAGE_SIZE] == m2[k];
      } else {
      }
    }
  }

  /** The characters of a NUL-free text, stored as bytes and followed by a zero byte, read back as the text. */
  lemma {:induction false} CStringOfBytes(text: string, rest: seq<u8>)
    requires Bytes(text) && '\0' !in text
    ensures CString(ToBytes(text) + [0] + rest) == text
    decreases |text|
  {
    if text != [] {
      assert text[0] in text;
      assert (ToBytes(text) + [0] + rest)[1..] == ToBytes(text[1..]) + [0] + rest;
      assert forall c :: c in text[1..] ==> c in text;
      CStringOfBytes(text[1..], rest);
    }
  }

  /**
   * A slot holding the record written for `text` is valid, is not marked
   * to start automatically, and reads back the stored text.
   */
  lemma RecordReadsBack(memory: seq<u8>, index: nat, text: string, checksum: seq<u8> -> nat)
    requires |memory| == EEPROM_SIZE && index < SLOTS && Bytes(text)
    requires memory[PgmAt(index)..PgmAt(index) + RECORD_SIZE] == Record(text, checksum)
    ensures SlotValid(memory, index, checksum) && !AutoSlot(memory, index, checksum)
    ensures SlotText(memory, index) == StoredText(text)
  {
    var at := PgmAt(index);
    var record := Record(text, checksum);
    RecordIsValid(memory, at, record, RecordData(text), checksum);
    var stored := StoredText(text);
    StoredBytes(text);
    var rest := memory[at + 1 + |stored| + 1..];
    TextBytesAt(memory, at, record, ToBytes(stored));
    CStringOfBytes(stored, rest);
  }

  /** A record whose CRC matches its data, found at `at`, makes a valid, manually started slot. */
  lemma RecordIsValid(memory: seq<u8>, at: nat, record: seq<u8>, data: seq<u8>, checksum: seq<u8> -> nat)
    requires at + RECORD_SIZE <= |memory| && memory[at..at + RECORD_SIZE] == record
    requires |record| == RECORD_SIZE && record[..DATA_SIZE] == data && data[0] == MARKER
    requires U16At(record, DATA_SIZE) == checksum(data) % TWO_POW_16
    ensures memory[at] == MARKER && memory[at..at + DATA_SIZE] == data
    ensures checksum(memory[at..at + DATA_SIZE]) % TWO_POW_16 == U16At(memory, at + DATA_SIZE)
  {
    assert memory[at..at + DATA_SIZE] == record[..DATA_SIZE];
    assert memory[at] == record[0];
    assert memory[at + DATA_SIZE] == record[DATA_SIZE] && memory[at + DATA_SIZE + 1] == record[DATA_SIZE + 1];
  }

  /** The text `strncpy` keeps is made of bytes when the source text is. */
  lemma StoredBytes(text: string)
    requires Bytes(text)
    ensures Bytes(StoredText(text))
  {
    var stored := StoredText(text);
    forall k | 0 <= k < |stored| ensures stored[k] as int < 256 {
      assert stored[k] == CText(text)[k] == text[k];
    }
  }

  /** Past the marker, a record's bytes are the stored text's bytes and its NUL. */
  lemma TextBytesAt(memory: seq<u8>, at: nat, record: seq<u8>, bytes: seq<u8>)
    requires at + |record| <= |memory| && memory[at..at + |record|] == record
    requires |bytes| + 2 <= |record| && record[1..1 + |bytes|] == bytes && record[1 + |bytes|] == 0
    ensures memory[at + 1..] == bytes + [0] + memory[at + 1 + |bytes| + 1..]
  {
    var n := |bytes|;
    var rest := memory[at + 1 + n + 1..];
    var m := memory[at..at + |record|];
    var here, there := memory[at + 1..at + 1 + n], m[1..1 + n];
    forall k | 0 <= k < n ensures here[k] == there[k] {
      assert m[1 + k] == memory[at + 1 + k];
    }
    assert memory[at + 1 + n] == m[1 + n];
    assert memory[at + 1..] == memory[at + 1..at + 1 + n] + [memory[at + 1 + n]] + rest;
  }

  /** An erased slot's marker reads 0xFF: the next power-up leaves it free. */
  lemma ErasedSlotIsFree(memory: seq<u8>, index: nat, checksum: seq<u8> -> nat)
    requires |memory| == EEPROM_SIZE && index < SLOTS
    ensures !SlotValid(WithPage(memory, 2 * index, Repeat(ERASED, EEPROM_PAGE_SIZE)), index, checksum)
  {
    var m := WithPage(memory, 2 * index, Repeat(ERASED, EEPROM_PAGE_SIZE));
    assert m[PgmAt(index)] == m[2 * index * EEPROM_PAGE_SIZE..2 * index * EEPROM_PAGE_SIZE + EEPROM_PAGE_SIZE][0];
  }

  /** Writing one slot leaves every other slot's record as it was. */
  lemma OtherSlotsKept(memory: seq<u8>, index: nat, record: seq<u8>, other: nat)
    requires |memory| == EEPROM_SIZE && index < SLOTS && |record| == RECORD_SIZE
    requires other < SLOTS && other != index
    ensures WithRecord(memory, index, record)[PgmAt(other)..PgmAt(other) + RECORD_SIZE]
         == memory[PgmAt(other)..PgmAt(other) + RECORD_SIZE]
  {
    var w := WithRecord(memory, index, record);
    var at := PgmAt(other);
    if other < index {
      assert at + RECORD_SIZE <= PgmAt(index);
    } else {
      assert PgmAt(index) + RECORD_SIZE <= at;
    }
    assert forall k :: at <= k < at + RECORD_SIZE ==> w[k] == memory[k];
  }

  // ---------------------------------------------------------------------
  // The slot addressing as written
  // ---------------------------------------------------------------------

  /** `pgm_at(index)` as written: the pages per slot come out as 60 / 32, that is 1. */
  function PgmAtAsWritten(index: nat): (r: nat)
    ensures r == EEPROM_PAGE_SIZE * index
  {
    EEPROM_PAGE_SIZE * index * (STORAGE_MAX_LENGTH / EEPROM_PAGE_SIZE)
  }

  /** The occupancy map after `write_pgm_at(pos, ..)` as written: the doubled position is marked, and a position past the map is ignored. */
  function MarkWrittenAsWritten(occupancy: seq<bool>, pos: nat): (r: seq<bool>)
    requires |occupancy| == SLOTS && pos < SLOTS
    ensures |r| == SLOTS
  {
    var bit := ToU8(2 * pos);
    if (bit as int) < SLOTS then occupancy[bit := true] else occupancy
  }

  /** As written, slot 1 is looked for at byte 32, which is the second half of slot 0's record. */
  lemma PgmAtAsWrittenOverlaps()
    ensures PgmAtAsWritten(1) == PgmAt(0) + EEPROM_PAGE_SIZE
    ensures forall i :: 1 <= i < SLOTS ==> PgmAtAsWritten(i) != PgmAt(i)
  {
  }

  /**
   * As written, writing slot 1 of an empty map marks slot 2 and leaves
   * slot 1 free, and writing slot 5 marks nothing at all.
   */
  lemma MarkWrittenAsWrittenMisses()
    ensures var r := MarkWrittenAsWritten(Repeat(false, SLOTS), 1); !r[1] && r[2]
    ensures MarkWrittenAsWritten(Repeat(false, SLOTS), 5) == Repeat(false, SLOTS)
  {
  }

  /**
   * The active program after `load(pgm)` as written: `etl::copy` writes
   * over the vector's first items without resizing it, so the vector keeps
   * its length, shows the copied items where it had items, and keeps its
   * old items past the end of `pgm`.
   */
  function CopyOverAsWritten(active: seq<Command>, pgm: seq<Command>): (r: seq<Command>)
    ensures |r| == |active|
    ensures forall k :: 0 <= k < |r| ==> r[k] == if k < |pgm| then pgm[k] else active[k]
  {
    if |pgm| <= |active| then pgm + active[|pgm|..] else pgm[..|active|]
  }

  /**
   * As written, `load(pgm)` leaves the copy of `pgm` active only when the
   * active program already had exactly as many items: loading `open 1s`
   * over the default program keeps its close and loop, and loading into
   * an empty program loads nothing.
   */
  lemma CopyOverAsWrittenDiffers(active: seq<Command>, pgm: seq<Command>)
    ensures CopyOverAsWritten(active, pgm) == pgm <==> |active| == |pgm|
    ensures CopyOverAsWritten(DEFAULT_PROGRAM, [Command(Open, 1000)]) == [Command(Open, 1000), Command(Close, 5000), Command(Loop, 0)]
    ensures CopyOverAsWritten([], [Command(Open, 1000)]) == []
  {
    if |active| == |pgm| {
      assert active[|pgm|..] == [];
      assert pgm + [] == pgm;
    }
    var d := CopyOverAsWritten(DEFAULT_PROGRAM, [Command(Open, 1000)]);
    assert d == [Command(Open, 1000)] + DEFAULT_PROGRAM[1..];
  }
}

/**
 * The model of the user interface: the manual program, a close time and
 * an open time in minutes and seconds, read from slot 0 on start-up and
 * written back to slot 0 as program text.
 */
module UiModel {
  import opened Base
  import opened ProgramModel
  import opened CommandParser
  import opened Nvm
  import opened ProgramManagerModel
  import ParserProperties

  /** The size of the text buffer, with its NUL. */
  const MANUAL_BUFFER_SIZE: nat := 22

  /**
   * `to_min_sec(ms, minutes)`: the whole seconds are kept in 16 bits, the
   * minutes in 8 bits; the result is the minutes and the seconds past them.
   */
  function ToMinSec(ms: u32): (r: (u8, u8))
    ensures r.1 < 60
    ensures ms < 15_360_000 ==> r.0 as int * 60 + r.1 as int == ms / 1000
  {
    var seconds := (ms / 1000) % TWO_POW_16;
    (ToU8(seconds / 60), (seconds % 60) as u8)
  }

  /** The milliseconds of a time in minutes and seconds. */
  function Millis(minutes: nat, seconds: nat): nat
  {
    (minutes * 60 + seconds) * 1000
  }

  /** Reading back a time of less than 256 minutes, with fewer than 60 seconds, gives the same minutes and seconds. */
  lemma ToMinSecInverse(minutes: u8, seconds: u8)
    requires seconds < 60
    ensures Millis(minutes as nat, seconds as nat) < TWO_POW_32
    ensures ToMinSec(Millis(minutes as nat, seconds as nat)) == (minutes, seconds)
  {
    var ms := Millis(minutes as nat, seconds as nat);
    assert ms / 1000 == minutes as int * 60 + seconds as int;
  }

  /** The text `snprintf` builds from the format "c %.2hhuM %.2hhus o %.2hhuM %.2hhus *" in a buffer of 22 bytes. */
  function ManualText(onMin: u8, onSec: u8, offMin: u8, offSec: u8): (r: string)
    ensures |r| <= MANUAL_BUFFER_SIZE - 1
    ensures onMin < 100 && onSec < 100 && offMin < 100 && offSec < 100 ==>
      r == "c " + Decimal2(onMin as nat) + "M " + Decimal2(onSec as nat) + "s o "
         + Decimal2(offMin as nat) + "M " + Decimal2(offSec as nat) + "s *"
  {
    Clip("c " + Decimal2(onMin as nat) + "M " + Decimal2(onSec as nat) + "s o "
         + Decimal2(offMin as nat) + "M " + Decimal2(offSec as nat) + "s *", MANUAL_BUFFER_SIZE - 1)
  }

  /** Printable ASCII characters only. */
  predicate Printable(s: string)
  {
    forall k :: 0 <= k < |s| ==> ' ' <= s[k] <= '~'
  }

  lemma PrintableConcat(a: string, b: string)
    requires Printable(a) && Printable(b)
    ensures Printable(a + b)
  {
    assert forall k :: |a| <= k < |a + b| ==> (a + b)[k] == b[k - |a|];
  }

  lemma PrintableDecimal2(n: nat)
    ensures Printable(Decimal2(n))
  {
    var d := Decimal2(n);
    assert forall k :: 0 <= k < |d| ==> IsDigit(d[k]);
  }

  /** The manual text is plain 8-bit text without NUL, short enough to be stored whole. */
  lemma ManualTextStored(onMin: u8, onSec: u8, offMin: u8, offSec: u8)
    ensures Bytes(ManualText(onMin, onSec, offMin, offSec))
    ensures StoredText(ManualText(onMin, onSec, offMin, offSec)) == ManualText(onMin, onSec, offMin, offSec)
  {
    var d1, d2, d3, d4 := Decimal2(onMin as nat), Decimal2(onSec as nat), Decimal2(offMin as nat), Decimal2(offSec as nat);
    PrintableDecimal2(onMin as nat);
    PrintableDecimal2(onSec as nat);
    PrintableDecimal2(offMin as nat);
    PrintableDecimal2(offSec as nat);
    PrintableConcat("c ", d1);
    PrintableConcat("c " + d1, "M ");
    PrintableConcat("c " + d1 + "M ", d2);
    PrintableConcat("c " + d1 + "M " + d2, "s o ");
    PrintableConcat("c " + d1 + "M " + d2 + "s o ", d3);
    PrintableConcat("c " + d1 + "M " + d2 + "s o " + d3, "M ");
    PrintableConcat("c " + d1 + "M " + d2 + "s o " + d3 + "M ", d4);
    PrintableConcat("c " + d1 + "M " + d2 + "s o " + d3 + "M " + d4, "s *");
    var full := "c " + d1 + "M " + d2 + "s o " + d3 + "M " + d4 + "s *";
    var t := ManualText(onMin, onSec, offMin, offSec);
    assert t == full[..|t|];
    assert Printable(t);
    CTextOfPlain(t);
  }

  class UIModel {
    const pm: ProgramManager
    var onMin: u8
    var onSec: u8
    var offMin: u8
    var offSec: u8
    /** `program_index`: the slot on display. */
    var programIndex: u8

    /**
     * Loads slot 0 and takes the close time from its first command and the
     * open time from its second. The first two commands must exist.
     */
    constructor(pm: ProgramManager)
      requires pm.Valid()
      requires |SlotParse(pm.eeprom.memory[..], 0).state.items| >= 2 || !pm.occupancy[0]
      modifies pm.parser, pm.active
      ensures this.pm == pm && pm.Valid() && |pm.active.items| >= 2
      ensures pm.occupancy[0] ==> pm.active.items == SlotParse(pm.eeprom.memory[..], 0).state.items
      ensures !pm.occupancy[0] ==> pm.active.items == DEFAULT_PROGRAM
      ensures (onMin, onSec) == ToMinSec(pm.active.items[0].delayMs)
      ensures (offMin, offSec) == ToMinSec(pm.active.items[1].delayMs)
      ensures programIndex == pm.selected
    {
      this.pm := pm;
      var started := pm.Load(0);
      var itemClose := pm.active.items[0];
      var itemOpen := pm.active.items[1];
      var on := ToMinSec(itemClose.delayMs);
      var off := ToMinSec(itemOpen.delayMs);
      onMin, onSec := on.0, on.1;
      offMin, offSec := off.0, off.1;
      programIndex := pm.selected;
    }

    /**
     * `store_manual_pgm()`: the manual program is written to slot 0 as
     * text and reloaded, so that the active program is that text parsed.
     */
    method StoreManualPgm()
      requires pm.Valid()
      modifies pm, pm.eeprom.memory, pm.eeprom.pageBuffer, pm.parser, pm.active
      ensures pm.Valid() && pm.occupancy == old(pm.occupancy)[0 := true]
      ensures Bytes(ManualText(onMin, onSec, offMin, offSec))
      ensures pm.eeprom.memory[..]
           == WithRecord(old(pm.eeprom.memory[..]), 0, Record(ManualText(onMin, onSec, offMin, offSec), pm.checksum))
      ensures pm.active.items == ParseSpec(0, 0, ManualText(onMin, onSec, offMin, offSec)).state.items
    {
      var text := ManualText(onMin, onSec, offMin, offSec);
      ManualTextStored(onMin, onSec, offMin, offSec);
      pm.WritePgmAt(0, text);
      assert pm.eeprom.memory[PgmAt(0)..PgmAt(0) + RECORD_SIZE] == Record(text, pm.checksum);
      RecordReadsBack(pm.eeprom.memory[..], 0, text, pm.checksum);
      var started := pm.Load(0);
    }
  }

  /**
   * On an erased memory, the scan of the program manager still marks slot
   * 0 occupied, so `load(0)` parses the erased bytes: one unknown word,
   * which the silent parser drops, leaving an empty program. The
   * constructor of `UIModel` then reads two commands that do not exist.
   */
  lemma ErasedSlotZeroParsesEmpty(memory: seq<u8>)
    requires memory == Repeat(ERASED, EEPROM_SIZE)
    ensures SlotParse(memory, 0).state.items == []
  {
    var w := SlotText(memory, 0);
    var bytes := memory[PgmAt(0) + 1..];
    assert |w| == |bytes|;
    assert w[0] == 255 as char;
    ParserProperties.SingleWord(w);
    assert w[0..|w|] == w;
    var init := Scan(State([], [], 0, NO_PROGRAM), More, ProgramParsed);
    var after := init.(state := Unexpected(init.state, 0, w, 0));
    assert StepSpec(init, 0, w, 0) == after;
    assert RunSpec(init, 0, w, LineTokens(w), 0) == after;
  }
}

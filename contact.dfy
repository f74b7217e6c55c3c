/**
 * The output contact: a relay wired either normally open (NO) or normally
 * closed (NC). The contact's state is what the user asked for; the relay
 * pin is driven so that the contact is open or closed whatever the wiring.
 */
module ContactModel {

  datatype NoNc = No | Nc

  datatype ContactState = LeaveAs | Open | Close

  /** Whether the contact is open for a wiring and a relay pin level. */
  predicate OpenFor(wiring: NoNc, relay: bool)
  {
    (wiring == No) != relay
  }

  /** The relay level that makes the contact open (or closed) for a wiring. */
  function RelayFor(wiring: NoNc, open: bool): (relay: bool)
    ensures OpenFor(wiring, relay) == open
  {
    if open then wiring != No else wiring == No
  }

  class Contact {
    /** `type` */
    var wiring: NoNc
    /** `contact` */
    var contact: ContactState
    /** The level of the relay control pin. */
    var relay: bool

    /** `Contact()`: normally open, nothing asked of it; the pin is whatever it is. */
    constructor(relay: bool)
      ensures wiring == No && contact == LeaveAs && this.relay == relay
    {
      wiring := No;
      contact := LeaveAs;
      this.relay := relay;
    }

    predicate IsNo()
      reads this
    {
      wiring == No
    }

    /** `is_open()` */
    predicate IsOpen()
      reads this
    {
      OpenFor(wiring, relay)
    }

    /**
     * `set(v)`: records the request and drives the relay for open or
     * close; `updated` tells whether a contact update is published.
     */
    method Set(v: ContactState) returns (updated: bool)
      modifies this
      ensures contact == v && wiring == old(wiring)
      ensures v == Open ==> IsOpen()
      ensures v == Close ==> !IsOpen()
      ensures v == LeaveAs ==> relay == old(relay)
      ensures updated <==> old(contact) != v
    {
      var oldContact := contact;
      contact := v;
      match v {
        case Open => relay := !IsNo();
        case Close => relay := IsNo();
        case LeaveAs =>
      }
      updated := oldContact != contact;
    }

    /** `flip()`: the contact changes from open to closed or back, and later wiring changes leave the relay alone. */
    method Flip() returns (updates: nat)
      modifies this
      ensures IsOpen() == !old(IsOpen())
      ensures contact == LeaveAs && wiring == old(wiring)
      ensures updates == (if old(contact) == (if old(IsOpen()) then Close else Open) then 0 else 1) + 1
    {
      var first := Set(if IsOpen() then Close else Open);
      var second := Set(LeaveAs);
      updates := (if first then 1 else 0) + (if second then 1 else 0);
    }

    /**
     * `set_as_no(isNo)`: the wiring changes and the request is applied
     * again; `contactUpdated` tells whether a contact update is published
     * besides the NO/NC update that always is.
     */
    method SetAsNo(isNo: bool) returns (contactUpdated: bool)
      modifies this
      ensures wiring == (if isNo then No else Nc) && contact == old(contact)
      ensures contact == Open ==> IsOpen()
      ensures contact == Close ==> !IsOpen()
      ensures contact == LeaveAs ==> relay == old(relay)
      ensures contactUpdated <==> old(IsOpen()) != IsOpen()
    {
      var prev := IsOpen();
      wiring := if isNo then No else Nc;
      var again := Set(contact);
      contactUpdated := prev != IsOpen();
    }
  }

  /**
   * After a flip the request is "leave as", so changing the wiring keeps
   * the relay and the contact the relay drives changes state.
   */
  lemma RewiringAfterFlip(wiring: NoNc, relay: bool, other: NoNc)
    requires other != wiring
    ensures OpenFor(other, relay) == !OpenFor(wiring, relay)
  {
  }
}

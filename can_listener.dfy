/** `CANListener` (src/CANListener.cpp): a one-slot mailbox for CAN
    warnings.  Every frame whose id is in the warning table overwrites the
    slot with its label and marks it pending; `getLatestWarning` reads and
    clears it.  Opening the socket and reading frames are left out: each
    `read` result is an input of `OnFrame`. */
module CanListener {

  /** `canid_t` is a 32-bit unsigned value. */
  type CanId = x: int | 0 <= x < 0x1_0000_0000

  const IntRange: int := 0x1_0000_0000

  /** The table key `find(frame.can_id)` looks up: the unsigned id becomes
      an `int`, so ids from 2^31 on (the extended-frame flag is bit 31)
      wrap to negative keys. */
  function TableKey(canId: CanId): (k: int)
    ensures -0x8000_0000 <= k < 0x8000_0000
    ensures k % IntRange == canId
  {
    if canId >= 0x8000_0000 then canId - IntRange else canId
  }

  class Listener {
    const canIface: string
    const idToWarning: map<int, string>
    var newWarning: bool
    var lastWarningType: string

    constructor(canIface: string, idToWarning: map<int, string>)
      ensures this.canIface == canIface && this.idToWarning == idToWarning
      ensures !newWarning && lastWarningType == ""
    {
      this.canIface := canIface;
      this.idToWarning := idToWarning;
      newWarning := false;
      lastWarningType := "";
    }

    /** The body of the `run` loop for one `read` of `nbytes` bytes carrying
        a frame with id `canId`. */
    method OnFrame(nbytes: int, canId: CanId)
      modifies this
      ensures nbytes > 0 && TableKey(canId) in idToWarning ==>
        newWarning && lastWarningType == idToWarning[TableKey(canId)]
      ensures !(nbytes > 0 && TableKey(canId) in idToWarning) ==>
        newWarning == old(newWarning) && lastWarningType == old(lastWarningType)
    {
      if nbytes > 0 {
        var key := TableKey(canId);
        if key in idToWarning {
          lastWarningType := idToWarning[key];
          newWarning := true;
        }
      }
    }

    /** `getLatestWarning(warningType)`: the out-parameter's value on entry
        is `warningType`, its value on return is `warningTypeOut`. */
    method GetLatestWarning(warningType: string) returns (found: bool, warningTypeOut: string)
      modifies this
      ensures found == old(newWarning)
      ensures found ==> warningTypeOut == lastWarningType && !newWarning
      ensures !found ==> warningTypeOut == warningType && !newWarning
      ensures lastWarningType == old(lastWarningType)
    {
      if newWarning {
        warningTypeOut := lastWarningType;
        newWarning := false;
        return true, warningTypeOut;
      }
      return false, warningType;
    }
  }

  // ---------------------------------------------------------------------
  // Properties, as runs of a fresh listener
  // ---------------------------------------------------------------------

  /** Before any frame nothing is pending. */
  method ReadBeforeAnyFrame(table: map<int, string>, given: string) returns (found: bool, out: string)
    ensures !found && out == given
  {
    var listener := new Listener("can0", table);
    found, out := listener.GetLatestWarning(given);
  }

  /** Two warning frames before a read: the slot is overwritten, so only the
      second label is delivered, and only once. */
  method TwoWarningsOneDelivery(table: map<int, string>, first: CanId, second: CanId)
    returns (found1: bool, delivered: string, found2: bool)
    requires TableKey(first) in table && TableKey(second) in table
    ensures found1 && delivered == table[TableKey(second)]
    ensures !found2
  {
    var listener := new Listener("can0", table);
    listener.OnFrame(8, first);
    listener.OnFrame(8, second);
    found1, delivered := listener.GetLatestWarning("");
    var unused;
    found2, unused := listener.GetLatestWarning(delivered);
  }

  /** A frame with an unknown id, or a failed read, delivers nothing. */
  method IgnoredFrame(table: map<int, string>, canId: CanId, nbytes: int) returns (found: bool)
    requires nbytes <= 0 || TableKey(canId) !in table
    ensures !found
  {
    var listener := new Listener("can0", table);
    listener.OnFrame(nbytes, canId);
    var out;
    found, out := listener.GetLatestWarning("");
  }

  /** The extended-frame flag makes the key negative. */
  lemma ExtendedIdKey()
    ensures TableKey(0x8000_0123) == -0x7FFF_FEDD
  {
  }
}

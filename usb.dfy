/**
 * The USB transport the control layer talks to: class requests to an interface, each one
 * control transfer. The device is a mock: a transfer fails when its position in the order of
 * transfers is listed in `faults` (a stall, a timeout, a disconnect at that moment); the other
 * IN requests are answered from `regs`, or stall when there is no register; an accepted
 * SET_CUR keeps its data as the answer to GET_CUR at the same wValue and wIndex.
 */
module Usb {
  import opened Bytes
  import opened Wrappers
  import opened Uvc
  import opened Errors
  import opened Descriptors

  /** The setup stage of a class-specific request to an interface. */
  datatype Setup = Setup(request: u8, value: u16, index: u16)

  /** One control transfer as issued: IN with its wLength, or OUT with its data. */
  datatype Transfer = In(setup: Setup, length: nat) | Out(setup: Setup, data: seq<u8>)

  /** The device as the host observes it, and the number of transfers issued so far. */
  datatype DeviceState = DeviceState(faults: map<nat, TransferError>, regs: map<Setup, seq<u8>>, sent: nat)

  /** The device after `n` more transfers that wrote nothing. */
  function Advance(dev: DeviceState, n: nat): (d: DeviceState)
    ensures d.faults == dev.faults && d.regs == dev.regs && d.sent == dev.sent + n
  {
    dev.(sent := dev.sent + n)
  }

  /** The bytes the device sends back to the next transfer, an IN request, or why it failed. */
  function ReplyIn(dev: DeviceState, s: Setup): Result<seq<u8>, TransferError>
  {
    if dev.sent in dev.faults then Failure(dev.faults[dev.sent])
    else if s in dev.regs then Success(dev.regs[s])
    else Failure(Stall)
  }

  /** The GET_CUR request that reads what a SET_CUR at the same address writes. */
  function CurOf(s: Setup): Setup
  {
    Setup(RequestCode(GetCur), s.value, s.index)
  }

  /** Outcome of the next transfer, an OUT request, and the device afterwards. */
  function ReplyOut(dev: DeviceState, s: Setup, data: seq<u8>): (Result<nat, TransferError>, DeviceState)
  {
    var next := Advance(dev, 1);
    if dev.sent in dev.faults then (Failure(dev.faults[dev.sent]), next)
    else if s.request == RequestCode(SetCur) then (Success(|data|), next.(regs := dev.regs[CurOf(s) := data]))
    else (Success(|data|), next)
  }

  function Min(a: nat, b: nat): nat
  {
    if a < b then a else b
  }

  class Transport {
    /** Alternate settings of every configuration, in the order the device reports them. */
    const altSettings: seq<AltSetting>
    /** Positions of the transfers that fail, and how. */
    const faults: map<nat, TransferError>
    var regs: map<Setup, seq<u8>>
    /** Every transfer issued, oldest first. */
    var log: seq<Transfer>

    function State(): DeviceState
      reads this
    {
      DeviceState(faults, regs, |log|)
    }

    constructor (altSettings: seq<AltSetting>, faults: map<nat, TransferError>, regs: map<Setup, seq<u8>>)
      ensures this.altSettings == altSettings && State() == DeviceState(faults, regs, 0) && log == []
    {
      this.altSettings := altSettings;
      this.faults := faults;
      this.regs := regs;
      log := [];
    }

    /**
     * An IN transfer into `buf` (wLength is its length): the device's bytes, as many as fit,
     * land at the start of `buf`; the rest of `buf` is left as it was. Returns the count.
     */
    method ControlIn(s: Setup, buf: array<u8>) returns (r: Result<nat, TransferError>)
      modifies this`log, buf
      ensures log == old(log) + [In(s, buf.Length)]
      ensures match ReplyIn(old(State()), s)
        case Failure(e) => r == Failure(e) && buf[..] == old(buf[..])
        case Success(bytes) =>
          var n := Min(|bytes|, buf.Length);
          && r == Success(n)
          && (forall k :: 0 <= k < n ==> buf[k] == bytes[k])
          && (forall k :: n <= k < buf.Length ==> buf[k] == old(buf[k]))
    {
      var reply := ReplyIn(State(), s);
      log := log + [In(s, buf.Length)];
      match reply
      case Failure(e) =>
        r := Failure(e);
      case Success(bytes) =>
        var n := Min(|bytes|, buf.Length);
        for i := 0 to n
          modifies buf
          invariant forall k :: 0 <= k < i ==> buf[k] == bytes[k]
          invariant forall k :: i <= k < buf.Length ==> buf[k] == old(buf[k])
        {
          buf[i] := bytes[i];
        }
        r := Success(n);
    }

    /** An OUT transfer of `data`. */
    method ControlOut(s: Setup, data: seq<u8>) returns (r: Result<nat, TransferError>)
      modifies this`log, this`regs
      ensures log == old(log) + [Out(s, data)]
      ensures (r, State()) == ReplyOut(old(State()), s, data)
    {
      var (res, st) := ReplyOut(State(), s, data);
      log := log + [Out(s, data)];
      r, regs := res, st.regs;
    }
  }
}

/**
 * The values the broker handles: identifiers, leases, waiters, requests and the
 * part of the configuration it reads.  Times and durations are integers counting
 * nanoseconds.
 */
module Records {
  import opened Basics

  type Serial = string
  type Session = string
  type Time = int

  const SECOND: int := 1_000_000_000
  const ORPHAN_BEAT: int := 60 * SECOND
  const STALE_WAITER: int := 90 * SECOND
  const UNCLAIMED_GRACE: int := 20 * SECOND

  /** A lease or waiter identifier: the daemon's process id and a counter. */
  datatype Id = Id(pid: nat, number: nat)

  datatype LeaseRec = LeaseRec(
    serial: Serial, session: Session, holder: string, pid: int,
    acquiredAt: Time, lastActive: Time, lastBeat: Time,
    running: nat, idleTTL: nat, explicit: bool, expiresAt: Time,
    claimed: bool, baseline: seq<string>)

  /** closed stands for the waiter's channel, lease for its lease pointer. */
  datatype WaiterRec = WaiterRec(
    serial: Serial, session: Session, holder: string, command: bool,
    idleTTL: nat, enqueued: Time, lastPoll: Time,
    closed: bool, lease: Option<Id>)

  datatype Config = Config(
    idleTTL: nat, explicitTTL: int, cleanup: bool,
    protectedPrefixes: seq<string>, denySerials: seq<string>)

  datatype AcquireReq = AcquireReq(
    serial: Serial, session: Session, holder: string, pid: int,
    ttlSec: int, explicit: bool, command: bool)

  datatype AcquireAnyReq = AcquireAnyReq(
    session: Session, holder: string, pid: int, ttlSec: int, usb: bool, emulator: bool)

  /** One line of `adb devices -l`. */
  datatype DeviceLine = DeviceLine(serial: Serial, state: string, usb: bool)

  function ExplicitTTL(config: Config, ttlSec: int): int {
    if ttlSec > 0 then ttlSec * SECOND else config.explicitTTL
  }
}

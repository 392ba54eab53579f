/** Choosing a device for acquire-any. */
module Selection {
  import opened Basics
  import opened Records

  predicate HasPrefix(s: string, p: string) {
    p <= s
  }

  predicate IsEmulator(s: Serial) {
    HasPrefix(s, "emulator-")
  }

  predicate DeniedSerial(serial: Serial, deny: seq<string>) {
    serial != "" && serial in deny
  }

  /** Listed as online, not denied by configuration, and meeting the request's constraints. */
  predicate Suits(d: DeviceLine, deny: seq<string>, usb: bool, emulator: bool) {
    && d.state == "device"
    && !DeniedSerial(d.serial, deny)
    && (usb ==> !IsEmulator(d.serial) && d.usb)
    && (emulator ==> IsEmulator(d.serial))
  }

  function FirstFree(devs: seq<DeviceLine>, held: set<Serial>, cleaning: set<Serial>,
                     deny: seq<string>, usb: bool, emulator: bool): Option<Serial>
  {
    if devs == [] then None
    else if Suits(devs[0], deny, usb, emulator) && devs[0].serial !in held && devs[0].serial !in cleaning
    then Some(devs[0].serial)
    else FirstFree(devs[1..], held, cleaning, deny, usb, emulator)
  }

  lemma {:induction false} FirstFreeIsFree(devs: seq<DeviceLine>, held: set<Serial>, cleaning: set<Serial>,
                        deny: seq<string>, usb: bool, emulator: bool)
    ensures var r := FirstFree(devs, held, cleaning, deny, usb, emulator);
            r.Some? ==> r.value !in held && r.value !in cleaning
  {
    if devs != [] { FirstFreeIsFree(devs[1..], held, cleaning, deny, usb, emulator); }
  }

  /** What acquire-any asks of a device, free or not: online, not denied by name, and of the kind asked for. */
  ghost predicate Eligible(d: DeviceLine, deny: seq<string>, usb: bool, emulator: bool) {
    && d.state == "device"
    && (d.serial == "" || d.serial !in deny)
    && (usb ==> d.usb && !("emulator-" <= d.serial))
    && (emulator ==> "emulator-" <= d.serial)
  }

  lemma SuitsExactly(d: DeviceLine, deny: seq<string>, usb: bool, emulator: bool)
    ensures Suits(d, deny, usb, emulator) <==> Eligible(d, deny, usb, emulator)
  {
  }

  /** devs[i] is eligible and free, and every eligible device listed before it is held or in cleanup. */
  ghost predicate FirstAt(devs: seq<DeviceLine>, held: set<Serial>, cleaning: set<Serial>,
                          deny: seq<string>, usb: bool, emulator: bool, i: nat)
  {
    && i < |devs|
    && Eligible(devs[i], deny, usb, emulator)
    && devs[i].serial !in held && devs[i].serial !in cleaning
    && (forall j :: 0 <= j < i && Eligible(devs[j], deny, usb, emulator) ==>
          devs[j].serial in held || devs[j].serial in cleaning)
  }

  datatype Busy = Busy(serial: Serial, cleaning: bool)

  /** Online, but denied by configuration. */
  function DeniedOnline(deny: seq<string>): DeviceLine -> bool {
    (d: DeviceLine) => d.state == "device" && d.serial != "" && d.serial in deny
  }

  ghost function EligibleIn(deny: seq<string>, usb: bool, emulator: bool): DeviceLine -> bool {
    (d: DeviceLine) => Eligible(d, deny, usb, emulator)
  }

  /** The eligible devices of devs, in order, each listed as held or else as in cleanup. */
  ghost predicate Lists(busy: seq<Busy>, devs: seq<DeviceLine>, held: set<Serial>, deny: seq<string>, usb: bool,
                        emulator: bool)
  {
    Listed(busy, Filter(EligibleIn(deny, usb, emulator), devs), held)
  }

  ghost predicate Listed(busy: seq<Busy>, passed: seq<DeviceLine>, held: set<Serial>) {
    && |busy| == |passed|
    && forall k :: 0 <= k < |busy| ==>
         busy[k].serial == passed[k].serial && (busy[k].cleaning <==> passed[k].serial !in held)
  }

  lemma ListedMore(busy: seq<Busy>, passed: seq<DeviceLine>, held: set<Serial>, d: DeviceLine, b: Busy)
    requires Listed(busy, passed, held) && b.serial == d.serial && (b.cleaning <==> d.serial !in held)
    ensures Listed(busy + [b], passed + [d], held)
  {
  }

  lemma ListsStep(busy: seq<Busy>, devs: seq<DeviceLine>, i: nat, held: set<Serial>, deny: seq<string>, usb: bool,
                  emulator: bool)
    requires i < |devs| && Lists(busy, devs[..i], held, deny, usb, emulator)
    ensures var d := devs[i];
            if Eligible(d, deny, usb, emulator)
            then forall b: Busy :: b.serial == d.serial && (b.cleaning <==> d.serial !in held) ==>
                   Lists(busy + [b], devs[..i + 1], held, deny, usb, emulator)
            else Lists(busy, devs[..i + 1], held, deny, usb, emulator)
  {
    hide Filter, Eligible, Listed;
    FilterStep(EligibleIn(deny, usb, emulator), devs, i);
    forall b: Busy | b.serial == devs[i].serial && (b.cleaning <==> devs[i].serial !in held)
      ensures Listed(busy + [b], Filter(EligibleIn(deny, usb, emulator), devs[..i]) + [devs[i]], held)
    {
      ListedMore(busy, Filter(EligibleIn(deny, usb, emulator), devs[..i]), held, devs[i], b);
    }
  }

  /** Every eligible device of devs is held or in cleanup. */
  ghost predicate AllBusy(devs: seq<DeviceLine>, held: set<Serial>, cleaning: set<Serial>,
                          deny: seq<string>, usb: bool, emulator: bool)
  {
    forall d :: d in devs && Eligible(d, deny, usb, emulator) ==> d.serial in held || d.serial in cleaning
  }

  lemma FirstFreeTail(devs: seq<DeviceLine>, i: nat, held: set<Serial>, cleaning: set<Serial>,
                      deny: seq<string>, usb: bool, emulator: bool)
    requires i < |devs|
    ensures FirstFree(devs[i..], held, cleaning, deny, usb, emulator)
         == if Suits(devs[i], deny, usb, emulator) && devs[i].serial !in held && devs[i].serial !in cleaning
            then Some(devs[i].serial)
            else FirstFree(devs[i + 1..], held, cleaning, deny, usb, emulator)
  {
    assert devs[i..][0] == devs[i] && devs[i..][1..] == devs[i + 1..];
  }

  /**
   * selectAcquireAny: the first free matching device, the matching ones passed over because they are busy, and how many
   * online devices were passed over because they are denied.
   */
  method SelectAcquireAny(devs: seq<DeviceLine>, held: set<Serial>, cleaning: set<Serial>,
                          deny: seq<string>, usb: bool, emulator: bool)
    returns (pick: Option<Serial>, busy: seq<Busy>, denied: nat)
    ensures pick == FirstFree(devs, held, cleaning, deny, usb, emulator)
    ensures pick.Some? ==>
              exists i: nat :: FirstAt(devs, held, cleaning, deny, usb, emulator, i) && devs[i].serial == pick.value
                && denied == |Filter(DeniedOnline(deny), devs[..i])|
                && Lists(busy, devs[..i], held, deny, usb, emulator)
    ensures pick.None? ==>
              && AllBusy(devs, held, cleaning, deny, usb, emulator)
              && denied == |Filter(DeniedOnline(deny), devs)|
              && Lists(busy, devs, held, deny, usb, emulator)
    ensures forall b :: b in busy ==> if b.cleaning then b.serial in cleaning else b.serial in held
    ensures pick.None? ==> (busy == [] <==> forall d :: d in devs ==> !Eligible(d, deny, usb, emulator))
  {
    hide FirstFree, Filter, Lists;
    pick, busy, denied := None, [], 0;
    NoneLeft(devs, held, cleaning, deny, usb, emulator);
    for i := 0 to |devs|
      invariant FirstFree(devs, held, cleaning, deny, usb, emulator)
             == FirstFree(devs[i..], held, cleaning, deny, usb, emulator)
      invariant forall j :: 0 <= j < i && Eligible(devs[j], deny, usb, emulator) ==>
                  devs[j].serial in held || devs[j].serial in cleaning
      invariant forall b :: b in busy ==> if b.cleaning then b.serial in cleaning else b.serial in held
      invariant busy == [] <==> forall j :: 0 <= j < i ==> !Eligible(devs[j], deny, usb, emulator)
      invariant Lists(busy, devs[..i], held, deny, usb, emulator)
      invariant denied == |Filter(DeniedOnline(deny), devs[..i])|
    {
      var d := devs[i];
      FirstFreeTail(devs, i, held, cleaning, deny, usb, emulator);
      FilterStep(DeniedOnline(deny), devs, i);
      ListsStep(busy, devs, i, held, deny, usb, emulator);
      if d.state != "device" {
        continue;
      }
      if DeniedSerial(d.serial, deny) {
        denied := denied + 1;
        continue;
      }
      var isEmu := IsEmulator(d.serial);
      if usb && (isEmu || !d.usb) {
        continue;
      }
      if emulator && !isEmu {
        continue;
      }
      if d.serial in held {
        busy := busy + [Busy(d.serial, false)];
        continue;
      }
      if d.serial in cleaning {
        busy := busy + [Busy(d.serial, true)];
        continue;
      }
      assert FirstAt(devs, held, cleaning, deny, usb, emulator, i);
      return Some(d.serial), busy, denied;
    }
    assert devs[..|devs|] == devs;
  }

  lemma NoneLeft(devs: seq<DeviceLine>, held: set<Serial>, cleaning: set<Serial>,
                 deny: seq<string>, usb: bool, emulator: bool)
    ensures devs[0..] == devs && FirstFree(devs[|devs|..], held, cleaning, deny, usb, emulator) == None
    ensures Filter(DeniedOnline(deny), devs[..0]) == []
    ensures Lists([], devs[..0], held, deny, usb, emulator)
  {
  }
}

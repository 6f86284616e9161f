/** Choosing the peripheral to connect to, from the result of one BLE scan.
    Both clients (`cilent.py` and `cilent_timeback.py`) run the same loop:
    walk the scanned devices in order and take the address of the first
    one whose advertised name contains "ESP32-C3 Sensor Server". */
module Discovery {
  import opened Wrappers
  import opened Text

  /** The name substring that identifies the sensor peripheral. */
  const TargetName := "ESP32-C3 Sensor Server"

  /** One scanned device. The scanning library reports `None` for a device
      that advertises no name. */
  datatype Device = Device(name: Option<string>, address: string)

  /** How the selection loop ends: with an address; having looked at every
      device without a match (`main` then returns without connecting); or
      with the `TypeError` that `"..." in None` raises on a nameless device,
      which ends `main` before any connection is made. */
  datatype Selection = Found(address: string) | NotFound | NameMissing

  predicate IsTarget(d: Device)
  {
    d.name.Some? && Contains(d.name.value, TargetName)
  }

  /** Devices the loop looks at and passes over. */
  predicate PassedOver(d: Device)
  {
    d.name.Some? && !Contains(d.name.value, TargetName)
  }

  /** The outcome of the loop, stated as a recursion over the scan. */
  function Scan(devices: seq<Device>): Selection
  {
    if devices == [] then NotFound
    else if devices[0].name.None? then NameMissing
    else if IsTarget(devices[0]) then Found(devices[0].address)
    else Scan(devices[1..])
  }

  /** The selection loop of `main`, with its `break` on the first match. */
  method SelectPeripheral(devices: seq<Device>) returns (sel: Selection)
    ensures sel == Scan(devices)
  {
    sel := NotFound;
    var i := 0;
    while i < |devices|
      invariant 0 <= i <= |devices|
      invariant Scan(devices) == Scan(devices[i..])
      invariant sel == NotFound
    {
      var d := devices[i];
      assert devices[i..][1..] == devices[i + 1..];
      if d.name.None? {
        sel := NameMissing;
        return;
      }
      if Contains(d.name.value, TargetName) {
        sel := Found(d.address);
        break;
      }
      i := i + 1;
    }
  }

  /** A target device preceded only by devices passed over is the one
      chosen. */
  lemma {:induction false} FirstMatchChosen(devices: seq<Device>, i: nat)
    requires i < |devices| && IsTarget(devices[i])
    requires forall j :: 0 <= j < i ==> PassedOver(devices[j])
    ensures Scan(devices) == Found(devices[i].address)
  {
    if i > 0 {
      assert PassedOver(devices[0]);
      FirstMatchChosen(devices[1..], i - 1);
    }
  }

  /** Conversely, a chosen address belongs to a target device preceded only
      by devices passed over. */
  lemma {:induction false} ChosenIsFirstMatch(devices: seq<Device>, a: string)
    requires Scan(devices) == Found(a)
    ensures exists k :: 0 <= k < |devices| && IsTarget(devices[k]) && devices[k].address == a &&
                        forall j :: 0 <= j < k ==> PassedOver(devices[j])
  {
    if !IsTarget(devices[0]) {
      var rest := devices[1..];
      ChosenIsFirstMatch(rest, a);
      var k :| 0 <= k < |rest| && IsTarget(rest[k]) && rest[k].address == a &&
               forall j :: 0 <= j < k ==> PassedOver(rest[j]);
      assert forall j :: 1 <= j < k + 1 ==> devices[j] == rest[j - 1];
      assert IsTarget(devices[k + 1]);
    }
  }

  /** No device is chosen exactly when every device was looked at and
      none matched. */
  lemma {:induction false} NotFoundIffNoMatch(devices: seq<Device>)
    ensures Scan(devices) == NotFound <==> forall j :: 0 <= j < |devices| ==> PassedOver(devices[j])
  {
    if devices != [] {
      NotFoundIffNoMatch(devices[1..]);
      assert forall j :: 1 <= j < |devices| ==> devices[j] == devices[1..][j - 1];
    }
  }

  /** The loop fails on a nameless device exactly when it reaches one:
      some device has no name and every device before it was passed over. */
  lemma {:induction false} NameMissingIffNamelessReached(devices: seq<Device>)
    ensures Scan(devices) == NameMissing <==>
      exists k :: 0 <= k < |devices| && devices[k].name.None? &&
                  forall j :: 0 <= j < k ==> PassedOver(devices[j])
  {
    if devices != [] {
      var rest := devices[1..];
      NameMissingIffNamelessReached(rest);
      if Scan(devices) == NameMissing && devices[0].name.Some? {
        var k :| 0 <= k < |rest| && rest[k].name.None? && forall j :: 0 <= j < k ==> PassedOver(rest[j]);
        assert forall j :: 1 <= j < k + 1 ==> devices[j] == rest[j - 1];
        assert devices[k + 1].name.None?;
      }
      if exists k :: 0 <= k < |devices| && devices[k].name.None? &&
                     forall j :: 0 <= j < k ==> PassedOver(devices[j]) {
        var k :| 0 <= k < |devices| && devices[k].name.None? &&
                 forall j :: 0 <= j < k ==> PassedOver(devices[j]);
        if k > 0 {
          assert PassedOver(devices[0]);
          assert forall j :: 0 <= j < k - 1 ==> rest[j] == devices[j + 1];
          assert rest[k - 1].name.None?;
        }
      }
    }
  }

  /** Devices scanned after the first match do not change the choice. */
  lemma {:induction false} LaterDevicesIgnored(devices: seq<Device>, later: seq<Device>)
    requires Scan(devices).Found?
    ensures Scan(devices + later) == Scan(devices)
  {
    assert (devices + later)[0] == devices[0];
    if !IsTarget(devices[0]) {
      assert (devices + later)[1..] == devices[1..] + later;
      LaterDevicesIgnored(devices[1..], later);
    }
  }
}

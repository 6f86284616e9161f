/** `cilent.py`: the BLE client that logs every notification as it comes,
    without a time: the handler appends the payload and a newline to the
    log, and keeps no state of its own. */
module PlainClient {
  import opened Text
  import opened Discovery
  import opened Session

  /** What the handler appends for each payload, in order. */
  function Appended(payloads: seq<string>): (writes: seq<string>)
    ensures |writes| == |payloads|
  {
    seq(|payloads|, i requires 0 <= i < |payloads| => payloads[i] + "\n")
  }

  /** Reading the log back: as long as no payload holds a newline of its
      own, splitting the appended text at the newlines gives the payloads
      back, followed by the empty text after the last newline. */
  lemma {:induction false} ReadBack(payloads: seq<string>)
    requires forall i :: 0 <= i < |payloads| ==> '\n' !in payloads[i]
    ensures Split(Concat(Appended(payloads)), '\n') == payloads + [""]
  {
    if payloads != [] {
      var rest := payloads[1..];
      assert Appended(payloads)[1..] == Appended(rest);
      ReadBack(rest);
      SplitAfterPiece(payloads[0], '\n', Concat(Appended(rest)));
      assert payloads[0] + "\n" + Concat(Appended(rest)) == payloads[0] + ['\n'] + Concat(Appended(rest));
      assert [payloads[0]] + (rest + [""]) == payloads + [""];
    }
  }

  /** The log file (each element one `write`; mode "a", so what was there
      stays). */
  class PlainLog {
    var log: seq<string>

    constructor (existing: seq<string>)
      ensures log == existing
    {
      log := existing;
    }

    /** `notification_handler`: append the payload and a newline. */
    method Handle(payload: string)
      modifies this
      ensures log == old(log) + Appended([payload])
    {
      log := log + [payload + "\n"];
    }
  }

  /** The wait of `main` while subscribed: poll for 'q', handling each
      notification that arrives between two polls, until 'q' is seen. */
  method Listen(stimuli: seq<Stimulus>, h: PlainLog) returns (events: seq<Event>)
    requires Pressed in stimuli
    modifies h
    ensures events == Reactions(stimuli[..StopIndex(stimuli) + 1])
    ensures h.log == old(h.log) + Appended(Payloads(Arrivals(stimuli[..StopIndex(stimuli)])))
  {
    ghost var k := StopIndex(stimuli);
    events := [];
    var i := 0;
    while true
      invariant 0 <= i <= k
      invariant events == Reactions(stimuli[..i])
      invariant h.log == old(h.log) + Appended(Payloads(Arrivals(stimuli[..i])))
      decreases k - i
    {
      StepOne(stimuli, i);
      assert i < k ==> stimuli[..k][i] == stimuli[i];
      ghost var before := Payloads(Arrivals(stimuli[..i]));
      match stimuli[i] {
        case Pressed =>
          events := events + [KeyCheck(true)];
          break;
        case NotPressed =>
          assert Arrivals(stimuli[..i + 1]) == Arrivals(stimuli[..i]);
          events := events + [KeyCheck(false)];
        case Arrival(n) =>
          assert Payloads(Arrivals(stimuli[..i + 1])) == before + [n.payload];
          assert Appended(before + [n.payload]) == Appended(before) + Appended([n.payload]);
          h.Handle(n.payload);
          events := events + [Notify(n.payload)];
      }
      i := i + 1;
    }
  }

  /** `main`: select the peripheral, connect and list its services,
      subscribe with the handler, wait for 'q', unsubscribe, and disconnect
      on leaving the connection block. */
  method Run(devices: seq<Device>, stimuli: seq<Stimulus>, h: PlainLog)
    returns (sel: Selection, trace: seq<Event>)
    requires Ends(devices, stimuli)
    modifies h
    ensures sel == Scan(devices) && trace == Trace(devices, stimuli)
    ensures h.log == old(h.log) + Appended(Payloads(Delivered(devices, stimuli)))
  {
    trace := [Discover];
    sel := SelectPeripheral(devices);
    if !sel.Found? {
      return;
    }
    trace := trace + [Connect(sel.address), GetServices, StartNotify(CharacteristicUuid)];
    var events := Listen(stimuli, h);
    trace := trace + events + [StopNotify(CharacteristicUuid), Disconnect];
  }
}

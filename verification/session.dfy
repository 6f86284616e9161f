/** The order of commands in `main` of both BLE clients, as a trace of
    events. After the scan, either no device is chosen and `main` returns,
    or the client connects, lists the services, subscribes to the
    measurement characteristic, polls the keyboard until 'q' is pressed
    (notifications are handled meanwhile), unsubscribes and leaves the
    connection block, which disconnects. */
module Session {
  import opened Discovery

  /** The measurement characteristic both clients subscribe to. */
  const CharacteristicUuid := "87654321-4321-4321-4321-210987654321"

  /** One notification: the wall-clock second at which the handler runs
      (what `datetime.now()` would read) and the decoded payload. */
  datatype Notification = Notification(now: int, payload: string)

  /** What the outside world does while the client waits for 'q': one poll
      of the keyboard finds 'q' pressed or not, or a notification arrives
      (during the sleep between two polls). */
  datatype Stimulus = Pressed | NotPressed | Arrival(note: Notification)

  datatype Event =
    | Discover
    | Connect(address: string)
    | GetServices
    | StartNotify(uuid: string)
    | KeyCheck(pressed: bool)
    | Notify(payload: string)
    | StopNotify(uuid: string)
    | Disconnect

  /** Position of the poll that sees 'q', the one that ends the wait. */
  function StopIndex(stimuli: seq<Stimulus>): (k: nat)
    requires Pressed in stimuli
    ensures k < |stimuli| && stimuli[k] == Pressed
    ensures Pressed !in stimuli[..k]
  {
    if stimuli[0] == Pressed then 0
    else
      var k := 1 + StopIndex(stimuli[1..]);
      assert stimuli[..k] == [stimuli[0]] + stimuli[1..][..k - 1];
      k
  }

  function Reaction(s: Stimulus): Event
  {
    match s
    case Pressed => KeyCheck(true)
    case NotPressed => KeyCheck(false)
    case Arrival(n) => Notify(n.payload)
  }

  /** The events of the waiting loop, one per stimulus. */
  function Reactions(stimuli: seq<Stimulus>): seq<Event>
  {
    seq(|stimuli|, i requires 0 <= i < |stimuli| => Reaction(stimuli[i]))
  }

  /** The notifications among the stimuli, in arrival order. */
  function Arrivals(stimuli: seq<Stimulus>): (notes: seq<Notification>)
    ensures |notes| <= |stimuli|
  {
    if stimuli == [] then []
    else
      var last := stimuli[|stimuli| - 1];
      Arrivals(stimuli[..|stimuli| - 1]) + (if last.Arrival? then [last.note] else [])
  }

  /** One more stimulus adds its reaction, and its notification if any. */
  lemma {:induction false} StepOne(stimuli: seq<Stimulus>, i: nat)
    requires i < |stimuli|
    ensures Reactions(stimuli[..i + 1]) == Reactions(stimuli[..i]) + [Reaction(stimuli[i])]
    ensures Arrivals(stimuli[..i + 1]) ==
      Arrivals(stimuli[..i]) + (if stimuli[i].Arrival? then [stimuli[i].note] else [])
  {
    assert stimuli[..i + 1][..i] == stimuli[..i];
  }

  /** A run of `main` either stops when its device is not chosen, or has a
      'q' press to end its wait. */
  predicate Ends(devices: seq<Device>, stimuli: seq<Stimulus>)
  {
    Scan(devices).Found? ==> Pressed in stimuli
  }

  function Opening(address: string): seq<Event>
  {
    [Discover, Connect(address), GetServices, StartNotify(CharacteristicUuid)]
  }

  function Closing(): seq<Event>
  {
    [StopNotify(CharacteristicUuid), Disconnect]
  }

  /** The events of one run of `main`: it always starts with the scan, and
      goes on past it exactly when a device was chosen. */
  function Trace(devices: seq<Device>, stimuli: seq<Stimulus>): (t: seq<Event>)
    requires Ends(devices, stimuli)
    ensures |t| >= 1 && t[0] == Discover
    ensures |t| > 1 <==> Scan(devices).Found?
  {
    match Scan(devices)
    case Found(a) => Opening(a) + Reactions(stimuli[..StopIndex(stimuli) + 1]) + Closing()
    case _ => [Discover]
  }

  /** The notifications the handler receives in that run: those that arrive
      while subscribed and before 'q' is seen; at most one per stimulus,
      and none without a chosen device. */
  function Delivered(devices: seq<Device>, stimuli: seq<Stimulus>): (notes: seq<Notification>)
    requires Ends(devices, stimuli)
    ensures |notes| <= |stimuli|
    ensures !Scan(devices).Found? ==> notes == []
  {
    if Scan(devices).Found? then Arrivals(stimuli[..StopIndex(stimuli)]) else []
  }

  /** Without a chosen device nothing but the scan happens: no connection,
      no subscription, no notification. */
  lemma NoDeviceNoConnection(devices: seq<Device>, stimuli: seq<Stimulus>)
    requires Ends(devices, stimuli) && !Scan(devices).Found?
    ensures forall e :: e in Trace(devices, stimuli) ==> e == Discover
    ensures Delivered(devices, stimuli) == []
  {
  }

  /** The events of the waiting loop are polls and notifications only, and
      only its last poll sees 'q'. */
  lemma WaitShape(stimuli: seq<Stimulus>)
    requires Pressed in stimuli
    ensures var k := StopIndex(stimuli); var w := Reactions(stimuli[..k + 1]);
      && |w| == k + 1
      && (forall i :: 0 <= i < |w| ==> w[i].KeyCheck? || w[i].Notify?)
      && w[k] == KeyCheck(true)
      && (forall i :: 0 <= i < |w| && w[i] == KeyCheck(true) ==> i == k)
  {
    var k := StopIndex(stimuli);
    assert forall i :: 0 <= i < k ==> stimuli[..k][i] == stimuli[i];
  }

  /** With a chosen device the run connects, lists the services and
      subscribes, in that order; then come the polls and notifications, and
      nothing else; then `stop_notify`, right after the poll that saw 'q'
      (the only poll that saw it), and the disconnect. There is one
      connection and one disconnection, with no reconnection between. */
  lemma {:induction false} SubscriptionBracketsWait(devices: seq<Device>, stimuli: seq<Stimulus>)
    requires Ends(devices, stimuli) && Scan(devices).Found?
    ensures var t := Trace(devices, stimuli);
      && |t| >= 7
      && t[..4] == Opening(Scan(devices).address)
      && t[|t| - 3] == KeyCheck(true)
      && t[|t| - 2..] == Closing()
      && (forall i :: 0 <= i < |t| && (t[i].Notify? || t[i].KeyCheck?) ==> 4 <= i < |t| - 2)
      && (forall i :: 4 <= i < |t| - 2 ==> t[i].KeyCheck? || t[i].Notify?)
      && (forall i :: 0 <= i < |t| && t[i] == KeyCheck(true) ==> i == |t| - 3)
      && (forall i :: 0 <= i < |t| && t[i].Connect? ==> i == 1)
      && (forall i :: 0 <= i < |t| && t[i] == Disconnect ==> i == |t| - 1)
  {
    var t := Trace(devices, stimuli);
    var w := Reactions(stimuli[..StopIndex(stimuli) + 1]);
    WaitShape(stimuli);
    assert t == Opening(Scan(devices).address) + w + Closing();
    assert forall i :: 4 <= i < |t| - 2 ==> t[i] == w[i - 4];
  }

  /** `start_notify` and `stop_notify` are each issued exactly once. */
  lemma {:induction false} SubscribeOnce(devices: seq<Device>, stimuli: seq<Stimulus>)
    requires Ends(devices, stimuli) && Scan(devices).Found?
    ensures multiset(Trace(devices, stimuli))[StartNotify(CharacteristicUuid)] == 1
    ensures multiset(Trace(devices, stimuli))[StopNotify(CharacteristicUuid)] == 1
  {
    var t := Trace(devices, stimuli);
    var w := Reactions(stimuli[..StopIndex(stimuli) + 1]);
    var start, stop := StartNotify(CharacteristicUuid), StopNotify(CharacteristicUuid);
    WaitShape(stimuli);
    assert t == Opening(Scan(devices).address) + w + Closing();
    assert start !in w && stop !in w;
    assert multiset(t) == multiset(Opening(Scan(devices).address)) + multiset(w) + multiset(Closing());
  }

  /** The payloads the trace shows being notified are exactly those the
      handler receives, in the same order. */
  function NotifiedPayloads(events: seq<Event>): seq<string>
  {
    if events == [] then []
    else
      var last := events[|events| - 1];
      NotifiedPayloads(events[..|events| - 1]) + (if last.Notify? then [last.payload] else [])
  }

  function Payloads(notes: seq<Notification>): seq<string>
  {
    seq(|notes|, i requires 0 <= i < |notes| => notes[i].payload)
  }

  lemma {:induction false} ReactionsShowArrivals(stimuli: seq<Stimulus>)
    ensures NotifiedPayloads(Reactions(stimuli)) == Payloads(Arrivals(stimuli))
  {
    if stimuli != [] {
      var n := |stimuli| - 1;
      ReactionsShowArrivals(stimuli[..n]);
      assert Reactions(stimuli) == Reactions(stimuli[..n]) + [Reaction(stimuli[n])];
      assert Reactions(stimuli)[..n] == Reactions(stimuli[..n]);
    }
  }

  lemma {:induction false} NoNotifyNoPayloads(events: seq<Event>)
    requires forall i :: 0 <= i < |events| ==> !events[i].Notify?
    ensures NotifiedPayloads(events) == []
  {
    if events != [] {
      NoNotifyNoPayloads(events[..|events| - 1]);
    }
  }

  lemma {:induction false} NotifiedPayloadsAppend(a: seq<Event>, b: seq<Event>)
    ensures NotifiedPayloads(a + b) == NotifiedPayloads(a) + NotifiedPayloads(b)
  {
    if b == [] {
      assert a + b == a;
    } else {
      var n := |b| - 1;
      assert (a + b)[..|a + b| - 1] == a + b[..n];
      NotifiedPayloadsAppend(a, b[..n]);
    }
  }

  lemma {:induction false} TraceShowsDelivered(devices: seq<Device>, stimuli: seq<Stimulus>)
    requires Ends(devices, stimuli)
    ensures NotifiedPayloads(Trace(devices, stimuli)) == Payloads(Delivered(devices, stimuli))
  {
    if Scan(devices).Found? {
      var k := StopIndex(stimuli);
      var a := Scan(devices).address;
      var mid := Reactions(stimuli[..k + 1]);
      ReactionsShowArrivals(stimuli[..k + 1]);
      StepOne(stimuli, k);
      assert Arrivals(stimuli[..k + 1]) == Arrivals(stimuli[..k]);
      NotifiedPayloadsAppend(Opening(a), mid);
      NotifiedPayloadsAppend(Opening(a) + mid, Closing());
      NoNotifyNoPayloads(Opening(a));
      NoNotifyNoPayloads(Closing());
    }
  }
}

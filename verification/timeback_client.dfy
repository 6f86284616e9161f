/** `cilent_timeback.py`: the BLE client that prefixes every notification
    it logs with a reconstructed time. The time of the first notification
    is taken as the anchor; each notification is then stamped
    `anchor + DATA_INTERVAL * (number of '\n' in that payload)` seconds and
    written as one line `time,payload\n` appended to the log. */
module TimebackClient {
  import opened Wrappers
  import opened Text
  import opened Discovery
  import opened Session

  /** Seconds between two samples of the peripheral (`DATA_INTERVAL`). */
  const DataInterval := 10

  /** The time given to a payload, in whole seconds, for a given anchor.
      It is never before the anchor, is the anchor itself exactly when the
      payload has no newline, and lies a whole number of intervals after
      it. */
  function Stamp(anchor: int, payload: string): (t: int)
    ensures t >= anchor
    ensures t == anchor <==> '\n' !in payload
    ensures (t - anchor) % DataInterval == 0
  {
    anchor + Count(payload, '\n') * DataInterval
  }

  /** The string one notification appends: the formatted stamp, a comma,
      the payload and a newline. */
  function Line(formatTime: int -> string, anchor: int, payload: string): string
  {
    formatTime(Stamp(anchor, payload)) + "," + payload + "\n"
  }

  /** Splitting a logged line at ',': as long as the formatted time holds
      no comma (true of `"%Y-%m-%d %H:%M:%S"`), the first field is the
      time, and the remaining fields joined with commas give back the
      payload followed by the newline the write added. This is a split of
      the one written string, not a CSV read: a payload holding several
      newline-separated samples becomes several CSV records, and only the
      first of them carries the time. */
  lemma LineReadBack(formatTime: int -> string, anchor: int, payload: string)
    requires ',' !in formatTime(Stamp(anchor, payload))
    ensures var fields := Split(Line(formatTime, anchor, payload), ',');
      && |fields| >= 2
      && fields[0] == formatTime(Stamp(anchor, payload))
      && Join(fields[1..], ',') == payload + "\n"
  {
    var time := formatTime(Stamp(anchor, payload));
    var rest := payload + "\n";
    assert Line(formatTime, anchor, payload) == time + [','] + rest;
    SplitAfterPiece(time, ',', rest);
    assert Split(Line(formatTime, anchor, payload), ',')[1..] == Split(rest, ',');
    JoinSplit(rest, ',');
  }

  /** The anchor after a run of notifications: the one already set, or else
      the arrival time of the first of them: a set anchor is never
      replaced, and the anchor is set once any notification has come. */
  function Anchor(start: Option<int>, notes: seq<Notification>): (a: Option<int>)
    ensures start.Some? ==> a == start
    ensures a.Some? <==> start.Some? || notes != []
    ensures start.None? && notes != [] ==> a == Some(notes[0].now)
  {
    if start.Some? || notes == [] then start else Some(notes[0].now)
  }

  /** The lines a run of notifications appends, in order. */
  function Lines(formatTime: int -> string, start: Option<int>, notes: seq<Notification>): (lines: seq<string>)
    ensures |lines| == |notes|
  {
    if notes == [] then []
    else
      var n := |notes| - 1;
      Lines(formatTime, start, notes[..n]) + [Line(formatTime, Anchor(start, notes).value, notes[n].payload)]
  }

  /** One more notification: the anchor is kept if set and taken from it
      otherwise, and its line is added at the end. */
  lemma {:induction false} NoteStep(formatTime: int -> string, start: Option<int>, notes: seq<Notification>, n: Notification)
    ensures Anchor(start, notes + [n]) ==
      if Anchor(start, notes).Some? then Anchor(start, notes) else Some(n.now)
    ensures Lines(formatTime, start, notes + [n]) ==
      Lines(formatTime, start, notes) + [Line(formatTime, Anchor(start, notes + [n]).value, n.payload)]
  {
    assert (notes + [n])[..|notes|] == notes;
    assert notes != [] ==> (notes + [n])[0] == notes[0];
  }

  /** Every line of a run is stamped from one and the same anchor and from
      its own payload only: the offset is not accumulated over earlier
      notifications. */
  lemma {:induction false} LinesShareAnchor(formatTime: int -> string, start: Option<int>, notes: seq<Notification>)
    ensures forall i :: 0 <= i < |notes| ==>
      Lines(formatTime, start, notes)[i] == Line(formatTime, Anchor(start, notes).value, notes[i].payload)
  {
    if notes != [] {
      var n := |notes| - 1;
      LinesShareAnchor(formatTime, start, notes[..n]);
      assert n > 0 ==> Anchor(start, notes[..n]) == Anchor(start, notes);
    }
  }

  /** Hence two lines of one run whose payloads have equally many newlines
      start with the same time, and two with the same payload are the same
      line, however far apart they arrive. */
  lemma EqualCountsEqualTimes(formatTime: int -> string, start: Option<int>, notes: seq<Notification>, i: nat, j: nat)
    requires i < |notes| && j < |notes|
    ensures var li, lj := Lines(formatTime, start, notes)[i], Lines(formatTime, start, notes)[j];
      var pi, pj := notes[i].payload, notes[j].payload;
      && |li| >= |pi| + 2 && |lj| >= |pj| + 2
      && (Count(pi, '\n') == Count(pj, '\n') ==> li[..|li| - |pi| - 2] == lj[..|lj| - |pj| - 2])
    ensures notes[i].payload == notes[j].payload ==>
      Lines(formatTime, start, notes)[i] == Lines(formatTime, start, notes)[j]
  {
    LinesShareAnchor(formatTime, start, notes);
    var a := Anchor(start, notes).value;
    TimeBeforePayload(formatTime, a, notes[i].payload);
    TimeBeforePayload(formatTime, a, notes[j].payload);
  }

  /** The text in front of the payload in a line is the formatted time. */
  lemma TimeBeforePayload(formatTime: int -> string, anchor: int, payload: string)
    ensures var line := Line(formatTime, anchor, payload);
      && |line| >= |payload| + 2
      && line[..|line| - |payload| - 2] == formatTime(Stamp(anchor, payload))
  {
    var time := formatTime(Stamp(anchor, payload));
    assert Line(formatTime, anchor, payload) == time + ("," + payload + "\n");
  }

  /** A batch stamped as a whole: its time is that of its first part moved
      on by one interval per newline of the rest. */
  lemma StampOfBatch(anchor: int, first: string, rest: string)
    ensures Stamp(anchor, first + rest) == Stamp(anchor, first) + DataInterval * Count(rest, '\n')
  {
    CountAppend(first, rest, '\n');
  }

  /** The handler's state: the module-level `start_time` and the log file
      (each element one `write`; mode "a", so what was there stays). */
  class TimestampLog {
    /** `strftime("%Y-%m-%d %H:%M:%S")`, left uninterpreted. */
    const formatTime: int -> string
    var startTime: Option<int>
    var log: seq<string>

    constructor (formatTime: int -> string, existing: seq<string>)
      ensures this.formatTime == formatTime
      ensures startTime == None && log == existing
    {
      this.formatTime := formatTime;
      startTime := None;
      log := existing;
    }

    /** `notification_handler`: fix the anchor on the first call only, then
        append one stamped line after the existing content. */
    method Handle(now: int, payload: string)
      modifies this
      ensures startTime == if old(startTime).Some? then old(startTime) else Some(now)
      ensures log == old(log) + [Line(formatTime, startTime.value, payload)]
    {
      if startTime.None? {
        startTime := Some(now);
      }
      var readings := Count(payload, '\n');
      var current := startTime.value + readings * DataInterval;
      log := log + [formatTime(current) + "," + payload + "\n"];
    }
  }

  /** One more stimulus of the wait, stated on the handler's state: a poll
      changes neither the anchor nor the log. */
  lemma {:induction false} PollStep(formatTime: int -> string, start: Option<int>, log: seq<string>,
                                    stimuli: seq<Stimulus>, i: nat, anchor: Option<int>, written: seq<string>)
    requires i < |stimuli| && !stimuli[i].Arrival?
    requires anchor == Anchor(start, Arrivals(stimuli[..i]))
    requires written == log + Lines(formatTime, start, Arrivals(stimuli[..i]))
    ensures anchor == Anchor(start, Arrivals(stimuli[..i + 1]))
    ensures written == log + Lines(formatTime, start, Arrivals(stimuli[..i + 1]))
  {
    StepOne(stimuli, i);
    assert Arrivals(stimuli[..i + 1]) == Arrivals(stimuli[..i]);
  }

  /** A notification sets the anchor if it is still unset and adds its
      line after what was written. */
  lemma {:induction false} ArrivalStep(formatTime: int -> string, start: Option<int>, log: seq<string>,
                                       stimuli: seq<Stimulus>, i: nat, anchor: Option<int>, written: seq<string>)
    requires i < |stimuli| && stimuli[i].Arrival?
    requires anchor == Anchor(start, Arrivals(stimuli[..i]))
    requires written == log + Lines(formatTime, start, Arrivals(stimuli[..i]))
    ensures var n := stimuli[i].note;
      var a := if anchor.Some? then anchor else Some(n.now);
      && a == Anchor(start, Arrivals(stimuli[..i + 1]))
      && written + [Line(formatTime, a.value, n.payload)] == log + Lines(formatTime, start, Arrivals(stimuli[..i + 1]))
  {
    var notes, n := Arrivals(stimuli[..i]), stimuli[i].note;
    StepOne(stimuli, i);
    assert Arrivals(stimuli[..i + 1]) == notes + [n];
    NoteStep(formatTime, start, notes, n);
    var line := Line(formatTime, Anchor(start, notes + [n]).value, n.payload);
    var lines := Lines(formatTime, start, notes);
    calc {
      written + [line];
      (log + lines) + [line];
      log + (lines + [line]);
      log + Lines(formatTime, start, notes + [n]);
    }
  }

  /** The wait of `main` while subscribed: poll for 'q', handling each
      notification that arrives between two polls, until 'q' is seen. */
  method Listen(stimuli: seq<Stimulus>, h: TimestampLog) returns (events: seq<Event>)
    requires Pressed in stimuli
    modifies h
    ensures events == Reactions(stimuli[..StopIndex(stimuli) + 1])
    ensures h.startTime == Anchor(old(h.startTime), Arrivals(stimuli[..StopIndex(stimuli)]))
    ensures h.log == old(h.log) + Lines(h.formatTime, old(h.startTime), Arrivals(stimuli[..StopIndex(stimuli)]))
  {
    ghost var k := StopIndex(stimuli);
    ghost var start, log := h.startTime, h.log;
    events := [];
    var i := 0;
    while true
      invariant 0 <= i <= k
      invariant events == Reactions(stimuli[..i])
      invariant h.startTime == Anchor(start, Arrivals(stimuli[..i]))
      invariant h.log == log + Lines(h.formatTime, start, Arrivals(stimuli[..i]))
      decreases k - i
    {
      StepOne(stimuli, i);
      assert i < k ==> stimuli[..k][i] == stimuli[i];
      var s := stimuli[i];
      events := events + [Reaction(s)];
      if s == Pressed {
        break;
      }
      if s.Arrival? {
        ArrivalStep(h.formatTime, start, log, stimuli, i, h.startTime, h.log);
        h.Handle(s.note.now, s.note.payload);
      } else {
        PollStep(h.formatTime, start, log, stimuli, i, h.startTime, h.log);
      }
      i := i + 1;
    }
  }

  /** `main`: select the peripheral, connect and list its services,
      subscribe with the handler, wait for 'q', unsubscribe, and disconnect
      on leaving the connection block. */
  method Run(devices: seq<Device>, stimuli: seq<Stimulus>, h: TimestampLog)
    returns (sel: Selection, trace: seq<Event>)
    requires Ends(devices, stimuli)
    modifies h
    ensures sel == Scan(devices) && trace == Trace(devices, stimuli)
    ensures h.startTime == Anchor(old(h.startTime), Delivered(devices, stimuli))
    ensures h.log == old(h.log) + Lines(h.formatTime, old(h.startTime), Delivered(devices, stimuli))
  {
    trace := [Discover];
    sel := SelectPeripheral(devices);
    if !sel.Found? {
      return;
    }
    trace := trace + [Connect(sel.address), GetServices, StartNotify(CharacteristicUuid)];
    var events := Listen(stimuli, h);
    trace := trace + events + [StopNotify(CharacteristicUuid), Disconnect];
    assert trace == Opening(sel.address) + events + Closing();
  }
}

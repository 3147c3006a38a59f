/**
 * The tracker's run-time loop: a single "current viewer" slot that each new
 * WebSocket connection overwrites, and a periodic tick that reads one line,
 * decodes it and, on success, pushes the location to the viewer (if any) and
 * submits the latitude to the remote time-series channel.
 */
module Relay {
  import opened Wrappers
  import Decimal
  import Rmc

  /** Identifies one WebSocket connection. */
  type ViewerId = nat

  /** How one bounded read of the serial line ended: the 5 s timeout fired, or a line arrived first. */
  datatype Read = Timeout | Line(text: string)

  /** Why a tick dispatches nothing. */
  datatype TickError = ReadTimeout | Undecodable(reason: Rmc.DecodeError)

  /**
   * What `await readGPSData()` yields for one read: the timeout's rejection,
   * or the decoder's verdict on the line, with a NaN location rejected.
   */
  function Acquire(r: Read): (res: Result<Rmc.Location, TickError>)
    ensures r.Timeout? ==> res == Err(ReadTimeout)
    ensures res.Ok? ==> (r.Line? && Rmc.DecodeAsWritten(r.text) ==
      Ok(Rmc.RawLocation(Decimal.Finite(res.value.latitude), Decimal.Finite(res.value.longitude))))
    ensures r.Line? && Rmc.DecodeAsWritten(r.text).Err? ==> res == Err(Undecodable(Rmc.DecodeAsWritten(r.text).error))
    ensures r.Line? && Rmc.DecodeAsWritten(r.text).Ok? ==> res.Ok? || res == Err(Undecodable(Rmc.MalformedNumber))
    ensures (r.Line? && Rmc.DecodeAsWritten(r.text).Ok? && Rmc.DecodeAsWritten(r.text).value.latitude.Finite?
      && Rmc.DecodeAsWritten(r.text).value.longitude.Finite?) ==> res.Ok?
  {
    match r
    case Timeout => Err(ReadTimeout)
    case Line(text) =>
      match Rmc.Decode(text)
      case Ok(loc) => Ok(loc)
      case Err(e) => Err(Undecodable(e))
  }

  /** What a tick sends out: a push to a viewer, or a remote submission carrying `field1`. */
  datatype Action = Push(viewer: ViewerId, location: Rmc.Location) | Submit(field1: real)

  /**
   * The dispatch of one tick, given what the read and decode yielded. A failure
   * sends nothing. A location is pushed to the registered viewer, and only to
   * it, and then the latitude alone is submitted remotely.
   */
  function Dispatch(viewer: Option<ViewerId>, outcome: Result<Rmc.Location, TickError>): (actions: seq<Action>)
    ensures actions == [] <==> outcome.Err?
    ensures |actions| <= 2
    ensures forall a | a in actions :: a.Push? ==> viewer == Some(a.viewer) && outcome == Ok(a.location)
    ensures forall a | a in actions :: a.Submit? ==> outcome.Ok? && a.field1 == outcome.value.latitude
    ensures outcome.Ok? && viewer.Some? ==> Push(viewer.value, outcome.value) in actions
    ensures outcome.Ok? ==> Submit(outcome.value.latitude) in actions
    ensures outcome.Ok? ==> (|actions| == (if viewer.Some? then 2 else 1)
      && actions[|actions| - 1] == Submit(outcome.value.latitude))
    ensures outcome.Ok? && viewer.Some? ==> actions[0] == Push(viewer.value, outcome.value)
  {
    match outcome
    case Err(_) => []
    case Ok(loc) =>
      (if viewer.Some? then [Push(viewer.value, loc)] else []) + [Submit(loc.latitude)]
  }

  /** What happens on the process's single timeline: a viewer connects, or the interval fires. */
  datatype Event = Connect(viewer: ViewerId) | Tick(read: Read)

  /** The viewer slot and everything sent so far. */
  datatype State = State(viewer: Option<ViewerId>, sent: seq<Action>)

  /** At start-up no viewer is registered and nothing has been sent. */
  const Initial: State := State(None, [])

  function Step(s: State, e: Event): State
  {
    match e
    case Connect(v) => State(Some(v), s.sent)
    case Tick(r) => State(s.viewer, s.sent + Dispatch(s.viewer, Acquire(r)))
  }

  /** The state after the events, in order. */
  function Replay(s: State, events: seq<Event>): State
    decreases |events|
  {
    if events == [] then s
    else Step(Replay(s, events[..|events| - 1]), events[|events| - 1])
  }

  /** Replaying two runs of events one after the other is replaying them joined. */
  lemma {:induction false} ReplayAppend(s: State, a: seq<Event>, b: seq<Event>)
    ensures Replay(s, a + b) == Replay(Replay(s, a), b)
    decreases |b|
  {
    if b == [] {
      assert a + b == a;
    } else {
      ReplayAppend(s, a, b[..|b| - 1]);
      assert (a + b)[..|a + b| - 1] == a + b[..|b| - 1];
    }
  }

  /** No connection arrives during these events. */
  predicate NoConnect(events: seq<Event>)
  {
    forall i :: 0 <= i < |events| ==> !events[i].Connect?
  }

  /**
   * While no connection arrives, the slot keeps its viewer, what was sent
   * stays sent, and every new push goes to that viewer.
   */
  lemma {:induction false} PushesGoToCurrentViewer(s: State, v: ViewerId, events: seq<Event>)
    requires s.viewer == Some(v) && NoConnect(events)
    ensures var t := Replay(s, events);
      && t.viewer == Some(v)
      && |s.sent| <= |t.sent| && t.sent[..|s.sent|] == s.sent
      && forall i :: |s.sent| <= i < |t.sent| && t.sent[i].Push? ==> t.sent[i].viewer == v
    decreases |events|
  {
    if events != [] {
      var init := events[..|events| - 1];
      assert NoConnect(init) by {
        forall i | 0 <= i < |init| ensures !init[i].Connect? {
          assert init[i] == events[i];
        }
      }
      PushesGoToCurrentViewer(s, v, init);
      var mid := Replay(s, init);
      var r := events[|events| - 1].read;
      var t := Replay(s, events);
      assert t.sent == mid.sent + Dispatch(Some(v), Acquire(r));
      forall i | |s.sent| <= i < |t.sent| && t.sent[i].Push? ensures t.sent[i].viewer == v {
        if i >= |mid.sent| {
          assert t.sent[i] in Dispatch(Some(v), Acquire(r));
        } else {
          assert t.sent[i] == mid.sent[i];
        }
      }
    }
  }

  /**
   * Last connection wins: after viewers v1 and then v2 connect, every push
   * made until the next connection goes to v2 and never to v1 (unless v1 is v2).
   */
  lemma LastViewerWins(before: seq<Event>, v1: ViewerId, v2: ViewerId, after: seq<Event>)
    requires NoConnect(after)
    ensures var start := Replay(Initial, before + [Connect(v1), Connect(v2)]);
      var end := Replay(Initial, before + [Connect(v1), Connect(v2)] + after);
      forall i :: |start.sent| <= i < |end.sent| && end.sent[i].Push? ==> end.sent[i].viewer == v2
  {
    var prefix := before + [Connect(v1), Connect(v2)];
    var start := Replay(Initial, prefix);
    assert prefix[..|prefix| - 1] == before + [Connect(v1)];
    assert start.viewer == Some(v2);
    ReplayAppend(Initial, prefix, after);
    PushesGoToCurrentViewer(start, v2, after);
  }

  /** A tick whose read times out or whose line does not decode changes nothing. */
  lemma FailedTickIsSilent(s: State, r: Read)
    requires Acquire(r).Err?
    ensures Step(s, Tick(r)) == s
  {
  }

  /** The running tracker: the viewer slot and the log of what it has sent. */
  class Tracker {
    /** `currentWebSocket`: the most recently connected viewer, if any. */
    var viewer: Option<ViewerId>
    /** Everything pushed or submitted so far, in order. */
    var sent: seq<Action>

    function Snapshot(): State
      reads this
    {
      State(viewer, sent)
    }

    constructor ()
      ensures Snapshot() == Initial
    {
      viewer := None;
      sent := [];
    }

    /** A new connection replaces whatever viewer was registered. */
    method RegisterViewer(v: ViewerId)
      modifies this
      ensures viewer == Some(v) && sent == old(sent)
      ensures Snapshot() == Step(old(Snapshot()), Connect(v))
    {
      viewer := Some(v);
    }

    /** One interval tick on an already-resolved read; returns what it sent. */
    method OnInterval(r: Read) returns (actions: seq<Action>)
      modifies this
      ensures actions == Dispatch(old(viewer), Acquire(r))
      ensures viewer == old(viewer) && sent == old(sent) + actions
      ensures Snapshot() == Step(old(Snapshot()), Tick(r))
    {
      actions := [];
      var outcome := Acquire(r);
      match outcome {
        case Err(_) =>
        case Ok(location) =>
          if viewer.Some? {
            actions := actions + [Push(viewer.value, location)];
          }
          actions := actions + [Submit(location.latitude)];
      }
      sent := sent + actions;
    }
  }

  /** A whole run of the process: connections and ticks on one timeline, from start-up. */
  method Run(events: seq<Event>) returns (sent: seq<Action>)
    ensures sent == Replay(Initial, events).sent
  {
    var tracker := new Tracker();
    var i := 0;
    while i < |events|
      invariant 0 <= i <= |events|
      invariant tracker.Snapshot() == Replay(Initial, events[..i])
    {
      assert events[..i + 1][..i] == events[..i];
      assert Replay(Initial, events[..i + 1]) == Step(Replay(Initial, events[..i]), events[i]);
      match events[i] {
        case Connect(v) =>
          tracker.RegisterViewer(v);
        case Tick(r) =>
          var _ := tracker.OnInterval(r);
      }
      i := i + 1;
    }
    assert events[..|events|] == events;
    sent := tracker.sent;
  }
}

/**
 * The network receive loop: each datagram longer than the header is
 * decoded; the first one has the output stream built from its channel
 * count and rate and started, handing the buffer's consumer side to the
 * stream; then its payload is converted and pushed into the buffer.
 * No later datagram rebuilds the stream, whatever its header says.
 * The stream's callback blocks, which drain the buffer, are interleaved
 * with the datagrams as events.
 *
 * Building and starting the stream belong to the audio library; the model
 * receives their verdict as `opens`, and a failure ends the loop (the
 * program returns the error). The 16-bit sample conversion also belongs to
 * the audio library and is received as `from16`.
 */
module Receiver {
  import opened Wrappers
  import Frame
  import Samples
  import opened SampleQueue
  import Playback

  /** What the output stream is built with. */
  datatype StreamConfig = StreamConfig(channels: nat, rate: nat)

  /**
   * The loop's state: the configuration of the stream once one is built,
   * whether the consumer side of the buffer is still held by the loop (not
   * yet moved into a stream), and the buffered samples.
   */
  datatype State = State(stream: Option<StreamConfig>, consumerHeld: bool, queue: seq<real>)

  /** The state after one datagram: still running, or ended by a stream error. */
  datatype Outcome = Running(state: State) | Failed(state: State)

  /** Before the first datagram: no stream, consumer held, buffer empty. */
  const Initial: State := State(None, true, [])

  predicate Bounded(s: State) {
    |s.queue| <= RingCapacity
  }

  function ConfigOf(h: Frame.Header): StreamConfig
  {
    StreamConfig(h.channels, h.rate)
  }

  /** The samples a datagram contributes; none for a datagram that is skipped. */
  function SamplesOf(d: seq<Frame.Byte>, from16: int -> real): (xs: seq<real>)
    ensures |d| <= Frame.HeaderSize ==> xs == []
  {
    match Frame.Decode(d)
    case None => []
    case Some(f) => Samples.Decode(f.header.width, f.payload, from16)
  }

  /** The state after the loop handles one datagram. */
  function Step(s: State, d: seq<Frame.Byte>, opens: StreamConfig -> bool, from16: int -> real): (r: Outcome)
    requires Bounded(s)
    ensures Bounded(r.state)
    ensures |d| <= Frame.HeaderSize ==> r == Running(s)
    ensures r.Running? ==> s.queue <= r.state.queue
    ensures s.stream.Some? ==> r.Running? && r.state.stream == s.stream && r.state.consumerHeld == s.consumerHeld
    ensures r.Failed? ==> r.state == s.(consumerHeld := false) && s.stream.None? && s.consumerHeld
  {
    match Frame.Decode(d)
    case None => Running(s)
    case Some(f) =>
      var pushed := Offer(s.queue, Samples.Decode(f.header.width, f.payload, from16), RingCapacity);
      if s.stream.None? && s.consumerHeld then
        var config := ConfigOf(f.header);
        if opens(config) then Running(State(Some(config), false, pushed))
        else Failed(s.(consumerHeld := false))
      else
        Running(s.(queue := pushed))
  }

  /** The state after the loop handles a sequence of datagrams, stopping at a stream error. */
  function Replay(s: State, ds: seq<seq<Frame.Byte>>, opens: StreamConfig -> bool, from16: int -> real): (r: Outcome)
    requires Bounded(s)
    ensures Bounded(r.state)
    decreases |ds|
  {
    if ds == [] then Running(s)
    else
      match Step(s, ds[0], opens, from16)
      case Failed(t) => Failed(t)
      case Running(t) => Replay(t, ds[1..], opens, from16)
  }

  /** The index of the first datagram that is not skipped. */
  function FirstFrame(ds: seq<seq<Frame.Byte>>): (k: Option<nat>)
    ensures k.None? <==> forall i :: 0 <= i < |ds| ==> |ds[i]| <= Frame.HeaderSize
    ensures k.Some? ==> k.value < |ds| && |ds[k.value]| > Frame.HeaderSize
    ensures k.Some? ==> forall i :: 0 <= i < k.value ==> |ds[i]| <= Frame.HeaderSize
    decreases |ds|
  {
    if ds == [] then None
    else if |ds[0]| > Frame.HeaderSize then Some(0)
    else match FirstFrame(ds[1..])
      case None => None
      case Some(k) => Some(k + 1)
  }

  /** Every sample the datagrams contribute, in arrival order. */
  function AllSamples(ds: seq<seq<Frame.Byte>>, from16: int -> real): (xs: seq<real>)
    decreases |ds|
  {
    if ds == [] then [] else SamplesOf(ds[0], from16) + AllSamples(ds[1..], from16)
  }

  /** A skipped datagram changes neither the stream, nor the consumer, nor the buffer. */
  lemma ShortDatagramIgnored(s: State, d: seq<Frame.Byte>, opens: StreamConfig -> bool, from16: int -> real)
    requires Bounded(s) && |d| <= Frame.HeaderSize
    ensures Step(s, d, opens, from16) == Running(s)
  {
  }

  /** A datagram that the loop gets past has its samples offered to the buffer, whatever the stream state. */
  lemma StepQueue(s: State, d: seq<Frame.Byte>, opens: StreamConfig -> bool, from16: int -> real)
    requires Bounded(s) && Step(s, d, opens, from16).Running?
    ensures Step(s, d, opens, from16).state.queue == Offer(s.queue, SamplesOf(d, from16), RingCapacity)
  {
  }

  /** Once a stream exists, no datagram rebuilds it or changes the consumer handle. */
  lemma {:induction false} StreamNeverRebuilt(s: State, ds: seq<seq<Frame.Byte>>, opens: StreamConfig -> bool, from16: int -> real)
    requires Bounded(s) && s.stream.Some?
    ensures Replay(s, ds, opens, from16).Running?
    ensures Replay(s, ds, opens, from16).state.stream == s.stream
    ensures Replay(s, ds, opens, from16).state.consumerHeld == s.consumerHeld
    decreases |ds|
  {
    if ds != [] {
      StreamNeverRebuilt(Step(s, ds[0], opens, from16).state, ds[1..], opens, from16);
    }
  }

  /**
   * From a state without a stream, the first datagram that is not skipped
   * decides everything about the stream: it is built from that datagram's
   * channel count and rate (and kept from then on), or the loop ends with
   * the consumer moved out and no stream. Without such a datagram nothing
   * changes.
   */
  lemma {:induction false} StreamFromFirstFrame(s: State, ds: seq<seq<Frame.Byte>>, opens: StreamConfig -> bool, from16: int -> real)
    requires Bounded(s) && s.stream.None? && s.consumerHeld
    ensures var r := Replay(s, ds, opens, from16);
      match FirstFrame(ds)
      case None => r == Running(s)
      case Some(k) =>
        var config := ConfigOf(Frame.Decode(ds[k]).value.header);
        if opens(config) then r.Running? && r.state.stream == Some(config) && !r.state.consumerHeld
        else r == Failed(s.(consumerHeld := false))
    decreases |ds|
  {
    if ds != [] {
      var t := Step(s, ds[0], opens, from16);
      if |ds[0]| > Frame.HeaderSize {
        if t.Running? {
          StreamNeverRebuilt(t.state, ds[1..], opens, from16);
        }
      } else {
        StreamFromFirstFrame(s, ds[1..], opens, from16);
        assert forall i :: 0 <= i < |ds| - 1 ==> ds[1..][i] == ds[i + 1];
      }
    }
  }

  /** The stream, when there is one, is built from the first datagram longer than the header. */
  lemma BuiltOnceFromFirstFrame(ds: seq<seq<Frame.Byte>>, opens: StreamConfig -> bool, from16: int -> real)
    requires Replay(Initial, ds, opens, from16).Running?
    ensures var st := Replay(Initial, ds, opens, from16).state;
      (st.stream.None? <==> FirstFrame(ds).None?) &&
      (st.stream.None? <==> st.consumerHeld) &&
      (st.stream.Some? ==> st.stream == Some(ConfigOf(Frame.Decode(ds[FirstFrame(ds).value]).value.header)))
  {
    StreamFromFirstFrame(Initial, ds, opens, from16);
  }

  /**
   * A run of datagrams with no callback block between them that ends
   * normally has buffered exactly what one batch push of all the datagrams'
   * samples would: everything in arrival order up to the capacity, nothing
   * after the buffer first filled.
   */
  lemma {:induction false} ReplayQueue(s: State, ds: seq<seq<Frame.Byte>>, opens: StreamConfig -> bool, from16: int -> real)
    requires Bounded(s) && Replay(s, ds, opens, from16).Running?
    ensures Replay(s, ds, opens, from16).state.queue == Offer(s.queue, AllSamples(ds, from16), RingCapacity)
    decreases |ds|
  {
    if ds == [] {
      assert s.queue + [][..0] == s.queue;
    } else {
      var t := Step(s, ds[0], opens, from16).state;
      assert Replay(s, ds, opens, from16) == Replay(t, ds[1..], opens, from16);
      StepQueue(s, ds[0], opens, from16);
      ReplayQueue(t, ds[1..], opens, from16);
      assert AllSamples(ds, from16) == SamplesOf(ds[0], from16) + AllSamples(ds[1..], from16);
      OfferConcat(s.queue, SamplesOf(ds[0], from16), AllSamples(ds[1..], from16), RingCapacity);
    }
  }

  /** What reaches the loop's state next: a datagram, or the stream's callback asking for a block of `slots` samples. */
  datatype Event = Receive(datagram: seq<Frame.Byte>) | Callback(slots: nat)

  /** A run of events: how it ended, the samples the buffer accepted, and the samples the callback took from it, each in order. */
  datatype Trace = Trace(outcome: Outcome, accepted: seq<real>, played: seq<real>)

  /**
   * How many buffered samples a callback block of `n` slots takes: none
   * while no stream exists or when the stream's channel count is zero (the
   * callback panics before popping), otherwise the block's length, or what
   * is buffered when that is less.
   */
  function Taken(s: State, n: nat): (k: nat)
    ensures k <= |s.queue| && k <= n
    ensures k < n && k < |s.queue| ==> s.stream.None? || s.stream.value.channels == 0
  {
    if s.stream.Some? && s.stream.value.channels > 0 then Min(n, |s.queue|) else 0
  }

  /** One event's effect on the loop's state, with the samples the buffer accepted and the samples the callback took. */
  function Advance(s: State, e: Event, opens: StreamConfig -> bool, from16: int -> real): (t: Trace)
    requires Bounded(s)
    ensures Bounded(t.outcome.state)
    ensures e.Receive? ==> t.outcome == Step(s, e.datagram, opens, from16) && t.played == []
    ensures e.Callback? ==> t.outcome == Running(s.(queue := s.queue[Taken(s, e.slots)..])) && t.accepted == []
  {
    match e
    case Callback(n) =>
      var k := Taken(s, n);
      Trace(Running(s.(queue := s.queue[k..])), [], s.queue[..k])
    case Receive(d) =>
      match Step(s, d, opens, from16)
      case Failed(u) => Trace(Failed(u), [], [])
      case Running(u) => Trace(Running(u), u.queue[|s.queue|..], [])
  }

  /** For one event, what the callback took followed by what is left is what was there followed by what was accepted. */
  lemma AdvanceIsFifo(s: State, e: Event, opens: StreamConfig -> bool, from16: int -> real)
    requires Bounded(s)
    ensures var t := Advance(s, e, opens, from16);
      t.played + t.outcome.state.queue == s.queue + t.accepted
  {
    match e
    case Callback(n) =>
      var k := Taken(s, n);
      assert s.queue[..k] + s.queue[k..] == s.queue;
    case Receive(d) =>
      var u := Step(s, d, opens, from16).state;
      assert s.queue + u.queue[|s.queue|..] == u.queue;
  }

  /** The loop's state over datagrams interleaved with callback blocks, stopping at a stream error. */
  function Simulate(s: State, es: seq<Event>, opens: StreamConfig -> bool, from16: int -> real): (t: Trace)
    requires Bounded(s)
    ensures Bounded(t.outcome.state)
    decreases |es|
  {
    if es == [] then Trace(Running(s), [], [])
    else
      var a := Advance(s, es[0], opens, from16);
      if a.outcome.Failed? then a
      else
        var t := Simulate(a.outcome.state, es[1..], opens, from16);
        Trace(t.outcome, a.accepted + t.accepted, a.played + t.played)
  }

  /** The datagrams as events, with no callback block between them. */
  function Receives(ds: seq<seq<Frame.Byte>>): (es: seq<Event>)
    ensures |es| == |ds| && forall i :: 0 <= i < |ds| ==> es[i] == Receive(ds[i])
  {
    seq(|ds|, i requires 0 <= i < |ds| => Receive(ds[i]))
  }

  /**
   * Two first-in-first-out stretches in a row make one: taking `p1` from
   * `q0` while `a1` arrives leaves `q1`, and taking `p2` from that while
   * `a2` arrives leaves `q2`.
   */
  lemma FifoCompose(q0: seq<real>, p1: seq<real>, a1: seq<real>, q1: seq<real>, p2: seq<real>, a2: seq<real>, q2: seq<real>)
    requires p1 + q1 == q0 + a1 && p2 + q2 == q1 + a2
    ensures (p1 + p2) + q2 == q0 + (a1 + a2)
  {
    calc {
      (p1 + p2) + q2;
      p1 + (p2 + q2);
      p1 + (q1 + a2);
      (p1 + q1) + a2;
      (q0 + a1) + a2;
    }
  }

  /**
   * The buffer is first in, first out under any interleaving: what the
   * callback took, followed by what is still buffered, is what was buffered
   * at the start followed by every sample the buffer accepted. So the
   * callback plays the accepted samples in arrival order with none skipped
   * or repeated, and the buffer always holds a contiguous run of them.
   */
  lemma {:induction false} SimulateIsFifo(s: State, es: seq<Event>, opens: StreamConfig -> bool, from16: int -> real)
    requires Bounded(s)
    ensures var t := Simulate(s, es, opens, from16);
      t.played + t.outcome.state.queue == s.queue + t.accepted
    decreases |es|
  {
    if es != [] {
      var a := Advance(s, es[0], opens, from16);
      if a.outcome.Running? {
        var t := Simulate(a.outcome.state, es[1..], opens, from16);
        AdvanceIsFifo(s, es[0], opens, from16);
        SimulateIsFifo(a.outcome.state, es[1..], opens, from16);
        FifoCompose(s.queue, a.played, a.accepted, a.outcome.state.queue, t.played, t.accepted, t.outcome.state.queue);
      }
    }
  }

  /** From the start of the program, the samples played and the samples still buffered together are exactly the samples accepted. */
  lemma PlayedThenBufferedIsAccepted(es: seq<Event>, opens: StreamConfig -> bool, from16: int -> real)
    ensures var t := Simulate(Initial, es, opens, from16);
      t.played + t.outcome.state.queue == t.accepted
  {
    SimulateIsFifo(Initial, es, opens, from16);
  }

  /** Once a stream exists, neither datagrams nor callback blocks rebuild it or change the consumer handle. */
  lemma {:induction false} SimulateKeepsStream(s: State, es: seq<Event>, opens: StreamConfig -> bool, from16: int -> real)
    requires Bounded(s) && s.stream.Some?
    ensures Simulate(s, es, opens, from16).outcome.Running?
    ensures Simulate(s, es, opens, from16).outcome.state.stream == s.stream
    ensures Simulate(s, es, opens, from16).outcome.state.consumerHeld == s.consumerHeld
    decreases |es|
  {
    if es != [] {
      SimulateKeepsStream(Advance(s, es[0], opens, from16).outcome.state, es[1..], opens, from16);
    }
  }

  /** Without callback blocks, events are the datagram replay: same outcome, nothing played, and what the buffer accepted is what it grew by. */
  lemma {:induction false} SimulateReceives(s: State, ds: seq<seq<Frame.Byte>>, opens: StreamConfig -> bool, from16: int -> real)
    requires Bounded(s)
    ensures Simulate(s, Receives(ds), opens, from16).outcome == Replay(s, ds, opens, from16)
    ensures Simulate(s, Receives(ds), opens, from16).played == []
    ensures var t := Simulate(s, Receives(ds), opens, from16);
      t.outcome.Running? ==> t.outcome.state.queue == s.queue + t.accepted
    decreases |ds|
  {
    if ds != [] {
      var es := Receives(ds);
      assert es[0] == Receive(ds[0]) && es[1..] == Receives(ds[1..]);
      var a := Advance(s, es[0], opens, from16);
      if a.outcome.Running? {
        SimulateReceives(a.outcome.state, ds[1..], opens, from16);
      }
    }
    var t := Simulate(s, Receives(ds), opens, from16);
    assert t.played + t.outcome.state.queue == s.queue + t.accepted by {
      SimulateIsFifo(s, Receives(ds), opens, from16);
    }
    assert [] + t.outcome.state.queue == t.outcome.state.queue;
  }

  /**
   * Building the stream does not depend on the sample width: a first
   * datagram of unknown width builds and starts the stream but buffers
   * nothing.
   */
  lemma UnknownWidthStillBuildsStream(d: seq<Frame.Byte>, opens: StreamConfig -> bool, from16: int -> real)
    requires |d| > Frame.HeaderSize && d[1] != 16 && d[1] != 32
    requires opens(StreamConfig(d[2], Frame.RateOf(d[0])))
    ensures Step(Initial, d, opens, from16) == Running(State(Some(StreamConfig(d[2], Frame.RateOf(d[0]))), false, []))
  {
  }

  /**
   * A 48000 Hz, 16-bit, 2-channel datagram carrying the little-endian
   * samples 100, -100, 200, -200 builds a 2-channel 48000 Hz stream and
   * buffers those four values, converted, in that order.
   */
  lemma StereoExample(opens: StreamConfig -> bool, from16: int -> real)
    requires opens(StreamConfig(2, 48000))
    ensures Step(Initial, [0x00, 0x10, 0x02, 0x00, 0x01, 100, 0, 0x9C, 0xFF, 200, 0, 0x38, 0xFF], opens, from16)
      == Running(State(Some(StreamConfig(2, 48000)), false, [from16(100), from16(-100), from16(200), from16(-200)]))
  {
    var d: seq<Frame.Byte> := [0x00, 0x10, 0x02, 0x00, 0x01, 100, 0, 0x9C, 0xFF, 200, 0, 0x38, 0xFF];
    var xs := Samples.Decode(16, d[5..], from16);
    assert xs == [from16(100), from16(-100), from16(200), from16(-200)];
    assert Offer([], xs, RingCapacity) == xs;
  }

  class Receiver {
    var stream: Option<StreamConfig>
    var consumerHeld: bool
    /** The ring buffer; the loop keeps its producer side. */
    const buffer: Queue

    ghost predicate Valid()
      reads this, buffer, buffer.slots
    {
      buffer.Valid() && buffer.capacity == RingCapacity
    }

    ghost function Model(): (s: State)
      reads this, buffer
    {
      State(stream, consumerHeld, buffer.Contents)
    }

    constructor ()
      ensures Valid() && Model() == Initial
      ensures fresh(buffer) && fresh(buffer.slots)
    {
      stream := None;
      consumerHeld := true;
      buffer := new Queue(RingCapacity);
    }

    /** Handles one received datagram; `ok == false` when building or starting the stream failed. */
    method OnDatagram(d: seq<Frame.Byte>, opens: StreamConfig -> bool, from16: int -> real) returns (ok: bool)
      requires Valid()
      modifies this, buffer, buffer.slots
      ensures Valid()
      ensures Step(old(Model()), d, opens, from16) == if ok then Running(Model()) else Failed(Model())
    {
      ok := true;
      if |d| <= Frame.HeaderSize {
        return;
      }
      var header := Frame.Decode(d).value.header;
      if stream.None? {
        if consumerHeld {
          consumerHeld := false;
          var config := ConfigOf(header);
          if !opens(config) {
            return false;
          }
          stream := Some(config);
        }
      }
      var payload := d[Frame.HeaderSize..];
      var samples := Samples.Decode(header.width, payload, from16);
      var _ := buffer.PushAll(samples);
    }

    /** Handles datagrams in arrival order until they run out or the stream cannot be started. */
    method Run(ds: seq<seq<Frame.Byte>>, opens: StreamConfig -> bool, from16: int -> real) returns (ok: bool)
      requires Valid()
      modifies this, buffer, buffer.slots
      ensures Valid()
      ensures Replay(old(Model()), ds, opens, from16) == if ok then Running(Model()) else Failed(Model())
    {
      var i := 0;
      ok := true;
      while i < |ds|
        invariant i <= |ds|
        invariant Valid()
        invariant Replay(old(Model()), ds, opens, from16) == Replay(Model(), ds[i..], opens, from16)
        decreases |ds| - i
      {
        ghost var before := Model();
        assert ds[i..][0] == ds[i] && ds[i..][1..] == ds[i + 1..];
        ok := OnDatagram(ds[i], opens, from16);
        if !ok {
          return;
        }
        assert Replay(before, ds[i..], opens, from16) == Replay(Model(), ds[i + 1..], opens, from16);
        i := i + 1;
      }
      assert ds[i..] == [];
    }

    /** A callback block of `n` slots: once a stream exists, a fresh block of that size is rendered from the buffer. */
    method OnCallback(n: nat)
      requires Valid()
      modifies buffer
      ensures Valid()
      ensures Model() == old(Model()).(queue := old(Model()).queue[Taken(old(Model()), n)..])
    {
      if stream.Some? {
        var out := new real[n];
        var _ := Render(out);
      }
    }

    /** Handles one event; `ok == false` when building or starting the stream failed. */
    method OnEvent(e: Event, opens: StreamConfig -> bool, from16: int -> real) returns (ok: bool)
      requires Valid()
      modifies this, buffer, buffer.slots
      ensures Valid()
      ensures Advance(old(Model()), e, opens, from16).outcome == if ok then Running(Model()) else Failed(Model())
    {
      match e {
        case Receive(d) =>
          ok := OnDatagram(d, opens, from16);
        case Callback(n) =>
          OnCallback(n);
          ok := true;
      }
    }

    /**
     * Drives the receiver through datagrams and callback blocks in order:
     * each callback block, once a stream exists, is a fresh output block of
     * the requested size rendered from the buffer.
     */
    method Serve(es: seq<Event>, opens: StreamConfig -> bool, from16: int -> real) returns (ok: bool)
      requires Valid()
      modifies this, buffer, buffer.slots
      ensures Valid()
      ensures Simulate(old(Model()), es, opens, from16).outcome == if ok then Running(Model()) else Failed(Model())
    {
      var i := 0;
      ok := true;
      while i < |es|
        invariant i <= |es|
        invariant Valid()
        invariant Simulate(old(Model()), es, opens, from16).outcome == Simulate(Model(), es[i..], opens, from16).outcome
        decreases |es| - i
      {
        ghost var before := Model();
        assert es[i..][0] == es[i] && es[i..][1..] == es[i + 1..];
        ok := OnEvent(es[i], opens, from16);
        if !ok {
          return;
        }
        assert Simulate(before, es[i..], opens, from16).outcome == Simulate(Model(), es[i + 1..], opens, from16).outcome;
        i := i + 1;
      }
      assert es[i..] == [];
    }

    /**
     * The built stream's output callback on one device block: it fills the
     * block in frames of the channel count the stream was built with, which
     * is byte 2 of the first datagram longer than 5 bytes, unchecked; a
     * count of zero panics.
     */
    method Render(out: array<real>) returns (ok: bool)
      requires Valid() && stream.Some? && out != buffer.slots
      modifies buffer, out
      ensures Valid()
      ensures ok <==> stream.value.channels > 0
      ensures ok ==> out[..] == Block(old(buffer.Contents), out.Length)
      ensures ok ==> buffer.Contents == old(buffer.Contents)[Min(out.Length, |old(buffer.Contents)|)..]
      ensures !ok ==> out[..] == old(out[..]) && buffer.Contents == old(buffer.Contents)
    {
      ok := Playback.FillBlock(buffer, out, stream.value.channels);
    }
  }
}

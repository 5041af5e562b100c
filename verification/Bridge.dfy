/**
 The bridge object: its construction, the handler for one event, the body of one tick of the
 pacing pump, and the report at the end. Each method is proved against the sequential meaning
 of the same operation in the interleaved model (`Dialogue.Handle`, `Handling.OpsFor`).
 */
module Bridges {
  import opened Basics
  import opened Pacing
  import opened Realtime
  import opened Dialogue
  import opened AudioBuffers
  import BridgeModel
  import Handling
  import Queueing

  /** Durations in nanoseconds. */
  const DEFAULT_BUFFER := 10_000_000_000

  const SILENCE_ALAW: byte := 0xD5
  const SILENCE_ULAW: byte := 0xFF

  function SilenceByte(payloadType: nat): byte {
    if payloadType == 8 then SILENCE_ALAW else SILENCE_ULAW
  }

  function Capacity(frameSize: nat, frameDur: int, bufferDur: int): nat
    requires frameDur > 0
  {
    frameSize * ((if bufferDur <= 0 then DEFAULT_BUFFER else bufferDur) / frameDur)
  }

  /** `n` is how many whole frames go into the duration asked for, or into ten seconds if none was. */
  predicate FramesIn(n: nat, frameDur: int, bufferDur: int) {
    if bufferDur > 0 then n * frameDur <= bufferDur < (n + 1) * frameDur
    else n * frameDur <= 10_000_000_000 < (n + 1) * frameDur
  }

  /** The cap is the largest number of whole frames that lasts no longer than asked. */
  ghost predicate WholeFrames(cap: nat, frameSize: nat, frameDur: int, bufferDur: int) {
    exists n :: FramesIn(n, frameDur, bufferDur) && cap == frameSize * n
  }

  lemma CapacityIsWholeFrames(frameSize: nat, frameDur: int, bufferDur: int)
    requires frameDur > 0
    ensures WholeFrames(Capacity(frameSize, frameDur, bufferDur), frameSize, frameDur, bufferDur)
    ensures frameSize > 0 && bufferDur > 0 ==>
              (Capacity(frameSize, frameDur, bufferDur) == 0 <==> bufferDur < frameDur)
  {
    var duration := if bufferDur <= 0 then DEFAULT_BUFFER else bufferDur;
    QuotientBounds(duration, frameDur);
    assert FramesIn(duration / frameDur, frameDur, bufferDur);
    if frameSize > 0 && duration / frameDur > 0 {
      assert frameSize * (duration / frameDur) >= frameSize;
    }
  }

  /** That says which cap it is. */
  lemma WholeFramesIsOneCap(cap: nat, cap': nat, frameSize: nat, frameDur: int, bufferDur: int)
    requires frameDur > 0
    requires WholeFrames(cap, frameSize, frameDur, bufferDur) && WholeFrames(cap', frameSize, frameDur, bufferDur)
    ensures cap == cap'
  {
    var m :| FramesIn(m, frameDur, bufferDur) && cap == frameSize * m;
    var n :| FramesIn(n, frameDur, bufferDur) && cap' == frameSize * n;
    MoreFrames(m, n, frameDur);
    MoreFrames(n, m, frameDur);
  }

  lemma MoreFrames(m: nat, n: nat, d: int)
    requires d > 0
    ensures m > n ==> m * d >= (n + 1) * d
  {
    if m > n {
      assert (m - (n + 1)) * d >= 0;
    }
  }

  lemma QuotientBounds(n: int, d: int)
    requires n >= 0 && d > 0
    ensures 0 <= n / d && (n / d) * d <= n < (n / d + 1) * d
    ensures n / d == 0 <==> n < d
  {
  }

  /** Without a buffer to speak of nothing the model says is ever heard. */
  lemma {:induction false} ZeroCapacityIsMute(fs: nat, ops: seq<Op>)
    ensures Flatten(Run(0, fs, START, ops).takes) == []
  {
    if ops != [] {
      var v := Run(0, fs, START, ops[..|ops| - 1]);
      ZeroCapacityIsMute(fs, ops[..|ops| - 1]);
      RunAgrees(0, fs, START, ops[..|ops| - 1]);
      FlattenSnoc(v.takes, Taken(v.q, fs));
    }
  }

  datatype Warning = TooSlow | DroppedAudio | SelfInterrupted

  class Bridge {
    const frameSize: nat
    const silence: byte
    const out: AudioBuffer
    const client: Client
    var turns: seq<Turn>
    var lastHeard: int
    var speaking: bool
    var responseActive: bool
    var framesSent: nat
    var starvedFrames: nat
    var bargeIns: nat
    var selfBargeIns: nat

    // History, for the specification only.
    ghost var cancels: nat
    ghost var faults: nat
    ghost var heard: nat

    ghost predicate Valid()
      reads this, out, out.data
    {
      out.Valid()
    }

    ghost function View(): Dialogue.View
      reads this, out
    {
      Dialogue.View(speaking, responseActive, turns, out.tape.written, bargeIns, cancels, faults, heard)
    }

    constructor (frameSize: nat, frameDur: int, silence: byte, bufferDur: int, client: Client, now: int)
      requires frameDur > 0
      ensures Valid() && fresh(out) && fresh(out.data)
      ensures WholeFrames(out.max, frameSize, frameDur, bufferDur) && out.World() == START
      ensures View() == QUIET && lastHeard == now
      ensures framesSent == starvedFrames == selfBargeIns == 0
      ensures this.frameSize == frameSize && this.silence == silence && this.client == client
    {
      var buffer := if bufferDur <= 0 then DEFAULT_BUFFER else bufferDur;
      this.frameSize, this.silence, this.client := frameSize, silence, client;
      out := new AudioBuffer(frameSize * (buffer / frameDur));
      turns, lastHeard := [], now;
      speaking, responseActive := false, false;
      framesSent, starvedFrames, bargeIns, selfBargeIns := 0, 0, 0, 0;
      cancels, faults, heard := 0, 0, 0;
      CapacityIsWholeFrames(frameSize, frameDur, bufferDur);
    }

    method Touch(now: int)
      modifies this`lastHeard, this`heard
      ensures lastHeard == now && heard == old(heard) + 1
    {
      lastHeard := now;
      heard := heard + 1;
    }

    method AddTurnOf(speaker: Speaker, text: string)
      modifies this`turns
      ensures turns == AddTurn(old(turns), speaker, text)
    {
      var trimmed := Text.Trim(text);
      if trimmed == "" {
        return;
      }
      turns := turns + [Turn(speaker, trimmed)];
    }

    /** One decoded delta: the utterance is under way and its audio queued. */
    method PlayDelta(audio: seq<byte>)
      requires Valid()
      modifies this`speaking, out, out.data
      ensures Valid()
      ensures View() == old(View()).(speaking := true, audio := old(View()).audio + audio)
      ensures out.World() == Apply(out.max, frameSize, old(out.World()), Write(audio))
    {
      speaking := true;
      var _ := out.Write(audio);
    }

    /** Count a barge-in, and count it again if the assistant was audible at the handset. */
    method CountBargeIn()
      requires Valid()
      modifies this`bargeIns, this`selfBargeIns
      ensures bargeIns == old(bargeIns) + 1
      ensures selfBargeIns == old(selfBargeIns) + if speaking || out.Contents().pending != [] then 1 else 0
    {
      var pending := out.Len();
      var selfInterrupt := speaking || pending > 0;
      bargeIns := bargeIns + 1;
      if selfInterrupt {
        selfBargeIns := selfBargeIns + 1;
      }
    }

    /** Cancel the response in flight, if there is one. */
    method CancelIfActive()
      modifies this`responseActive, this`cancels, client
      ensures !responseActive
      ensures cancels == old(cancels) + if old(responseActive) then 1 else 0
      ensures client.tried == old(client.tried) + (if old(responseActive) then [Cancel] else [])
      ensures client.outbox
           == old(client.outbox) + if old(responseActive) && old(client.Writable()) then [Cancel] else []
    {
      if responseActive {
        responseActive := false;
        cancels := cancels + 1;
        var _ := client.Send(Cancel);
      }
    }

    /** The caller speaks: measure, count, flush, and cancel the response if there is one. */
    method BargeIn(now: int)
      requires Valid()
      modifies this`speaking, this`responseActive, this`lastHeard, this`bargeIns, this`selfBargeIns
      modifies this`cancels, this`heard, out, client
      ensures Valid()
      ensures View() == Handle(old(View()), SpeechStarted)
      ensures out.World() == Apply(out.max, frameSize, old(out.World()), Flush)
      ensures lastHeard == now
      ensures selfBargeIns == old(selfBargeIns)
                + if old(speaking) || old(out.Contents()).pending != [] then 1 else 0
      ensures client.tried == old(client.tried) + (if old(responseActive) then [Cancel] else [])
      ensures client.outbox
           == old(client.outbox) + if old(responseActive) && old(client.Writable()) then [Cancel] else []
    {
      CountBargeIn();
      speaking := false;
      out.Reset();
      assert out.tape.written == old(out.tape.written);
      CancelIfActive();
      Touch(now);
    }

    /** The events that do not touch the buffer. */
    method OnOther(ev: ServerEvent, now: int)
      requires !ev.SpeechStarted? && !CarriesAudio(ev)
      modifies this`speaking, this`responseActive, this`turns, this`lastHeard, this`faults, this`heard
      ensures View() == Handle(old(View()), ev)
      ensures lastHeard == if HearsCaller(ev) then now else old(lastHeard)
    {
      match ev {
        case ResponseCreated =>
          responseActive := true;
        case AudioDelta(_) =>
          faults := faults + 1;
        case AudioDone =>
          speaking := false;
        case ResponseDone =>
          speaking := false;
          responseActive := false;
        case SpeechStopped =>
          Touch(now);
        case InTranscript(text) =>
          AddTurnOf(Caller, text);
          Touch(now);
        case OutTranscript(text) =>
          AddTurnOf(Assistant, text);
        case Fault(code) =>
          if code != Some(CancelNotActive) {
            faults := faults + 1;
          }
        case _ =>
      }
    }

    /** Handle one server event, with nothing else running. */
    method OnEvent(ev: ServerEvent, now: int)
      requires Valid()
      modifies this`speaking, this`responseActive, this`turns, this`lastHeard, this`bargeIns, this`selfBargeIns
      modifies this`cancels, this`faults, this`heard, out, out.data, client
      ensures Valid()
      ensures View() == Handle(old(View()), ev)
      ensures out.World() == Run(out.max, frameSize, old(out.World()), Handling.OpsFor(ev))
      ensures lastHeard == if HearsCaller(ev) then now else old(lastHeard)
      ensures selfBargeIns == old(selfBargeIns)
                + if ev.SpeechStarted? && (old(speaking) || old(out.Contents()).pending != []) then 1 else 0
      ensures client.tried
           == old(client.tried) + (if ev.SpeechStarted? && old(responseActive) then [Cancel] else [])
      ensures client.outbox == old(client.outbox)
           + if ev.SpeechStarted? && old(responseActive) && old(client.Writable()) then [Cancel] else []
    {
      match ev {
        case AudioDelta(Some(audio)) => PlayDelta(audio);
        case SpeechStarted => BargeIn(now);
        case _ => OnOther(ev, now);
      }
    }

    /** One tick up to the write: fill the frame, count it, and count it as starved if it should be. */
    method Pace(frame: array<byte>) returns (n: nat)
      requires Valid() && frame != out.data && frame.Length == frameSize
      modifies this`framesSent, this`starvedFrames, out, frame
      ensures Valid() && View() == old(View())
      ensures out.World() == Apply(out.max, frameSize, old(out.World()), Tick)
      ensures frame[..] == Frame(Taken(old(out.Contents()), frameSize), frameSize, silence)
      ensures framesSent == old(framesSent) + 1
      ensures starvedFrames == old(starvedFrames)
                + if |old(out.Contents()).pending| < frameSize && speaking then 1 else 0
    {
      n := out.Take(frame, silence);
      framesSent := framesSent + 1;
      if n < frame.Length && speaking {
        starvedFrames := starvedFrames + 1;
      }
    }

    /** The counters, and the warnings that go with them: starved above two per cent, any drop, any self-interruption. */
    method ReportQuality() returns (report: BridgeModel.Report, warnings: set<Warning>)
      requires Valid()
      ensures report == BridgeModel.Report(framesSent, starvedFrames, out.Contents().dropped, bargeIns, selfBargeIns)
      ensures TooSlow in warnings <==> (framesSent > 0 && starvedFrames * 100 > 2 * framesSent)
      ensures DroppedAudio in warnings <==> Fate.Dropped in out.tape.settled
      ensures SelfInterrupted in warnings <==> selfBargeIns > 0
    {
      var dropped := out.Dropped();
      report := BridgeModel.Report(framesSent, starvedFrames, dropped, bargeIns, selfBargeIns);
      warnings := {};
      var starvedPct := 0.0;
      if framesSent > 0 {
        starvedPct := starvedFrames as real / framesSent as real * 100.0;
        PercentAbove(starvedFrames, framesSent, 2);
      }
      if starvedPct > 2.0 {
        warnings := warnings + {TooSlow};
      }
      if dropped > 0 {
        warnings := warnings + {DroppedAudio};
      }
      if selfBargeIns > 0 {
        warnings := warnings + {SelfInterrupted};
      }
      CountIsZero(out.tape.settled, Fate.Dropped);
    }
  }

  lemma PercentAbove(part: nat, whole: nat, pct: nat)
    requires whole > 0
    ensures part as real / whole as real * 100.0 > pct as real <==> part * 100 > pct * whole
  {
    var ratio := part as real / whole as real;
    assert ratio * whole as real == part as real;
    assert (ratio * 100.0 - pct as real) * whole as real == (part * 100 - pct * whole) as real;
  }

  lemma {:induction false} CountIsZero<T>(s: seq<T>, x: T)
    ensures Count(s, x) == 0 <==> x !in s
  {
    if s != [] {
      CountIsZero(s[..|s| - 1], x);
      assert s == s[..|s| - 1] + [s[|s| - 1]];
    }
  }
}

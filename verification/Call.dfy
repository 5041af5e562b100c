/**
 One answered call from codec to hang-up: which codecs are bridged at all, that session, wire
 and silence agree on the codec, and what the wire and the model get to see over a whole call.
 */
module Calls {
  import opened Basics
  import opened Pacing
  import opened Realtime
  import opened Dialogue
  import opened BridgeModel
  import opened Bridges
  import AudioPath
  import Handling
  import Outgoing
  import Shutdown

  const PCMA := 8
  const PCMU := 0

  /** The session format for a negotiated payload type; only G.711 has one. */
  function RealtimeFormat(payloadType: nat): Option<Format> {
    if payloadType == PCMA then Some("audio/pcma")
    else if payloadType == PCMU then Some("audio/pcmu")
    else None
  }

  datatype Answered =
    | NotG711
    | Echoing
    | DialFailed(setup: Setup)
    | Bridged(cfg: Config)

  /** The configuration of a call that is bridged: all of it follows from the codec and the options. */
  ghost predicate ConfiguredFor(cfg: Config, payloadType: nat) {
    || (payloadType == 8 && cfg.format == "audio/pcma" && cfg.silence == 0xD5)
    || (payloadType == 0 && cfg.format == "audio/pcmu" && cfg.silence == 0xFF)
  }

  /**
   Set up the call. Audio is bridged only for G.711, and then only once the session has echoed
   the negotiated codec for both directions before anything else decisive.
   */
  method AnswerCall(payloadType: nat, frameSize: nat, frameDur: int, bufferDur: int, idleGuard: bool,
                    maxCall: bool, echoTest: bool, inbox: seq<Inbound>, writes: seq<bool>, now: int)
    returns (r: Answered)
    requires frameDur > 0
    ensures r.NotG711? <==> payloadType != PCMA && payloadType != PCMU
    ensures r.Echoing? <==> !r.NotG711? && echoTest
    ensures r.Bridged? ==>
              && ConfiguredFor(r.cfg, payloadType)
              && r.cfg.frameSize == frameSize && WholeFrames(r.cfg.capacity, frameSize, frameDur, bufferDur)
              && r.cfg.idleGuard == idleGuard && r.cfg.maxCall == maxCall
    ensures r.Bridged? || r.DialFailed? ==>
              (r.Bridged? <==>
                && writes != [] && writes[0]
                && FirstDecisive(inbox) < |inbox|
                && exists f :: RealtimeFormat(payloadType) == Some(f)
                            && inbox[FirstDecisive(inbox)] == Arrived(SessionUpdated(Some((f, f)))))
    ensures r.DialFailed? ==> (r.setup.SendFailed? <==> writes == [] || !writes[0])
  {
    var format := RealtimeFormat(payloadType);
    if format == None {
      return NotG711;
    }
    if echoTest {
      return Echoing;
    }
    var client := new Client(format.value, inbox, writes);
    var setup := client.Configure();
    if setup != Ready {
      return DialFailed(setup);
    }
    var silence := SilenceByte(payloadType);
    var bridge := new Bridge(frameSize, frameDur, silence, bufferDur, client, now);
    r := Bridged(Config(frameSize, bridge.out.max, silence, format.value, idleGuard, maxCall));
  }

  predicate FilledFrame(u: Audio, i: nat, n: nat, silence: byte)
    requires i < |u.attempts|
  {
    && i < |u.w.takes| && |u.w.takes[i]| <= n
    && u.attempts[i] == u.w.takes[i] + Repeat(silence, n - |u.w.takes[i]|)
  }

  /** Every frame handed to the writer is the take of its turn, filled up with silence. */
  predicate FilledUp(u: Audio, n: nat, silence: byte) {
    forall i :: 0 <= i < |u.attempts| ==> FilledFrame(u, i, n, silence)
  }

  /**
   Over a whole bridged call: the session was asked once for the negotiated codec, then greeted
   once, then only appends and cancels were sent; and every frame on the wire is audio the model
   sent, in the order it sent it and with nothing played twice, filled up with the silence of
   that codec.
   */
  lemma WholeCall(payloadType: nat, cfg: Config, actions: seq<Action>, s: State)
    requires ConfiguredFor(cfg, payloadType) && Reaches(cfg, actions, s)
    ensures Outgoing.CommandOrder(cfg, s.commands, !Shutdown.NotStarted(s))
    ensures RealtimeFormat(payloadType) == Some(s.commands[0].format)
    ensures FilledUp(s.aud, cfg.frameSize, SilenceByte(payloadType))
    ensures s.aud.w.tape.written <= Flatten(AudioPieces(s.talk.handled))
    ensures Handling.BetweenEvents(s.e) ==> s.aud.w.tape.written == Flatten(AudioPieces(s.talk.handled))
    ensures |s.aud.w.tape.settled| <= |s.aud.w.tape.written|
    ensures Flatten(s.aud.w.takes) == Select(s.aud.w.tape.written, s.aud.w.tape.settled, Played)
  {
    Outgoing.CommandsInOrder(cfg, actions, s);
    Handling.StreamIsOfEvents(cfg, actions, s);
    AudioPath.ByteLedger(cfg, actions, s);
    forall i | 0 <= i < |s.aud.attempts|
      ensures FilledFrame(s.aud, i, cfg.frameSize, SilenceByte(payloadType))
    {
      AudioPath.WireIsTakesAndSilence(cfg, actions, s, i);
    }
  }
}

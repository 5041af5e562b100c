/**
 The model session as the client sees it: decoded server events, the commands sent back, and
 the handshake that refuses a session whose audio format is not the one on the wire.
 */
module Realtime {
  import opened Basics

  /** An audio format by its type string, such as "audio/pcma". */
  type Format = string

  /**
   A decoded server event. `AudioDelta(None)` is a delta whose payload does not decode,
   `SessionUpdated(None)` an echo that does not; `Fault(None)` an error with no detail.
   */
  datatype ServerEvent =
    | SessionUpdated(echo: Option<(Format, Format)>)
    | ResponseCreated
    | AudioDelta(audio: Option<seq<byte>>)
    | AudioDone
    | ResponseDone
    | SpeechStarted
    | SpeechStopped
    | InTranscript(text: string)
    | OutTranscript(text: string)
    | Fault(code: Option<ErrorCode>)
    | Other

  /** The one error code the bridge knows, "response_cancel_not_active", and all others. */
  datatype ErrorCode = CancelNotActive | OtherCode(text: string)

  datatype Command = SessionUpdate(format: Format) | ResponseCreate | Append(audio: seq<byte>) | Cancel

  /** What a read of the connection yields: an event, or an error. */
  datatype Inbound = Arrived(event: ServerEvent) | Broken

  datatype Setup =
    | Ready
    | SendFailed
    | ReadFailed
    | Refused(code: Option<ErrorCode>)
    | UnreadableEcho
    | WrongFormat(input: Format, output: Format)

  /** The handshake skips every message but these. */
  predicate Decisive(m: Inbound) {
    m.Broken? || m.event.Fault? || m.event.SessionUpdated?
  }

  /** Position of the first decisive message, or the length when there is none. */
  function FirstDecisive(inbox: seq<Inbound>): (i: nat)
    ensures i <= |inbox|
    ensures forall k :: 0 <= k < i ==>
              inbox[k].Arrived? && !inbox[k].event.Fault? && !inbox[k].event.SessionUpdated?
    ensures i < |inbox| ==> inbox[i].Broken? || inbox[i].event.Fault? || inbox[i].event.SessionUpdated?
  {
    if inbox == [] || Decisive(inbox[0]) then 0 else 1 + FirstDecisive(inbox[1..])
  }

  class Client {
    const format: Format
    var inbox: seq<Inbound>
    var outbox: seq<Command>
    var writes: seq<bool>    // how the writes to come will end; past the last they fail

    // History, for the specification only: every command a write was tried for.
    ghost var tried: seq<Command>

    constructor (format: Format, inbox: seq<Inbound>, writes: seq<bool>)
      ensures this.format == format && this.inbox == inbox && this.writes == writes
      ensures outbox == [] && tried == []
    {
      this.format, this.inbox, this.writes, outbox := format, inbox, writes, [];
      tried := [];
    }

    /** The next write will succeed. */
    predicate Writable()
      reads this`writes
    {
      writes != [] && writes[0]
    }

    /** Hand one command to the connection; the write may fail. */
    method Send(command: Command) returns (ok: bool)
      modifies this`outbox, this`writes, this`tried
      ensures ok <==> old(Writable())
      ensures tried == old(tried) + [command]
      ensures outbox == old(outbox) + if ok then [command] else []
      ensures writes == if old(writes) == [] then [] else old(writes)[1..]
    {
      ok := writes != [] && writes[0];
      writes := if writes == [] then [] else writes[1..];
      tried := tried + [command];
      if ok {
        outbox := outbox + [command];
      }
    }

    /** The next message; once nothing more arrives the read fails. */
    method Read() returns (m: Inbound)
      modifies this`inbox
      ensures m == if old(inbox) == [] then Broken else old(inbox)[0]
      ensures inbox == if old(inbox) == [] then [] else old(inbox)[1..]
    {
      if inbox == [] {
        m := Broken;
      } else {
        m, inbox := inbox[0], inbox[1..];
      }
    }

    /**
     Ask for the format and wait for the echo. The session is ready exactly when the first
     decisive message is an echo of the asked format for both directions.
     */
    method Configure() returns (r: Setup)
      modifies this`inbox, this`outbox, this`writes, this`tried
      ensures tried == old(tried) + [SessionUpdate(format)]
      ensures r.SendFailed? <==> !old(Writable())
      ensures r.SendFailed? ==> inbox == old(inbox) && outbox == old(outbox)
      ensures !r.SendFailed? ==>
                var i := FirstDecisive(old(inbox));
                && outbox == old(outbox) + [SessionUpdate(format)]
                && inbox == old(inbox)[Min(i + 1, |old(inbox)|)..]
                && (r.Ready? <==>
                    (i < |old(inbox)| && old(inbox)[i] == Arrived(SessionUpdated(Some((format, format))))))
                && (r.ReadFailed? <==> (i == |old(inbox)| || old(inbox)[i].Broken?))
                && (r.Refused? ==> old(inbox)[i] == Arrived(Fault(r.code)))
                && (r.UnreadableEcho? ==> old(inbox)[i] == Arrived(SessionUpdated(None)))
                && (r.WrongFormat? ==> old(inbox)[i] == Arrived(SessionUpdated(Some((r.input, r.output)))))
    {
      var sent := Send(SessionUpdate(format));
      if !sent {
        return SendFailed;
      }
      ghost var i := FirstDecisive(inbox);
      ghost var all := inbox;
      ghost var k := 0;
      while true
        invariant 0 <= k <= i && inbox == all[k..]
        invariant outbox == old(outbox) + [SessionUpdate(format)] && tried == old(tried) + [SessionUpdate(format)]
        decreases i - k
      {
        var m := Read();
        assert k < |all| ==> m == all[k];
        assert inbox == all[Min(k + 1, |all|)..];
        assert Decisive(m) ==> k == i;
        match m {
          case Broken => return ReadFailed;
          case Arrived(Fault(code)) => return Refused(code);
          case Arrived(SessionUpdated(None)) => return UnreadableEcho;
          case Arrived(SessionUpdated(Some((input, output)))) =>
            if input != format || output != format {
              return WrongFormat(input, output);
            }
            return Ready;
          case _ =>
        }
        k := k + 1;
      }
    }
  }
}

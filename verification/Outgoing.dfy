/**
 What the model service is sent over a call: the handshake, the greeting, the caller's audio and
 the cancels, each exactly where the run gave cause for it, over every interleaving.
 */
module Outgoing {
  import opened Basics
  import opened Realtime
  import opened Dialogue
  import opened BridgeModel
  import Handling
  import Shutdown

  predicate MidCall(command: Command) {
    command.Append? || command.Cancel?
  }

  /** Configure once, greet once, then only caller audio and cancels. */
  predicate CommandOrder(cfg: Config, commands: seq<Command>, started: bool) {
    && |commands| >= (if started then 2 else 1)
    && commands[0] == SessionUpdate(cfg.format)
    && (started ==> commands[1] == ResponseCreate)
    && (forall i :: (if started then 2 else 1) <= i < |commands| ==> MidCall(commands[i]))
    && (!started ==> |commands| == 1)
  }

  // ---------- One step ----------

  lemma StepKeepsOrder(cfg: Config, s: State, a: Action)
    requires CommandOrder(cfg, s.commands, !Shutdown.NotStarted(s)) && Step(cfg, s, a).Some?
    ensures var t := Step(cfg, s, a).value; CommandOrder(cfg, t.commands, !Shutdown.NotStarted(t))
  {
    if a.OfEvents? {
      Handling.EventsCommand(cfg, s, a.choice);
    }
  }

  /** Session first, greeting second, then only appends and cancels. */
  lemma {:induction false} CommandsInOrder(cfg: Config, actions: seq<Action>, s: State)
    requires Reaches(cfg, actions, s)
    ensures CommandOrder(cfg, s.commands, !Shutdown.NotStarted(s))
  {
    if actions != [] {
      var init, a := actions[..|actions| - 1], actions[|actions| - 1];
      var before := Exec(cfg, Init(cfg), init).value;
      CommandsInOrder(cfg, init, before);
      StepKeepsOrder(cfg, before, a);
    }
  }

  // ---------- Cancels ----------

  lemma CountSnoc<T>(s: seq<T>, x: T, y: T)
    ensures Count(s + [x], y) == Count(s, y) + if x == y then 1 else 0
  {
    assert (s + [x])[..|s|] == s;
  }

  /** A step sends a cancel exactly when it is the handler's and its write succeeds. */
  lemma StepCountsCancels(cfg: Config, s: State, a: Action)
    requires Step(cfg, s, a).Some?
    ensures var t := Step(cfg, s, a).value;
            && Count(t.commands, Cancel) == Count(s.commands, Cancel) + (if a == OfEvents(Succeeds) then 1 else 0)
            && t.talk.cancels
               == s.talk.cancels + if a == OfEvents(Succeeds) || a == OfEvents(Fails) then 1 else 0
  {
    match a
    case OfCaller(choice) => CallerCountsCancels(cfg, s, choice);
    case OfPacer(choice) => Handling.PumpsLeaveView(cfg, s, choice);
    case OfEvents(choice) =>
      Handling.EventsCommand(cfg, s, choice);
      CountSnoc(s.commands, Cancel, Cancel);
      assert s.commands + [] == s.commands;
    case OfMain(choice) => CountSnoc(s.commands, ResponseCreate, Cancel);
    case _ =>
  }

  lemma CallerCountsCancels(cfg: Config, s: State, choice: Choice)
    requires CallerStep(cfg, s, choice).Some?
    ensures var t := CallerStep(cfg, s, choice).value;
            Count(t.commands, Cancel) == Count(s.commands, Cancel) && t.talk == s.talk
  {
    if s.c.CAppend? {
      CountSnoc(s.commands, Append(s.c.chunk), Cancel);
    }
  }

  lemma {:induction false} CancelsCounted(cfg: Config, actions: seq<Action>, s: State)
    requires Reaches(cfg, actions, s)
    ensures Count(s.commands, Cancel) + Count(actions, OfEvents(Fails)) == s.talk.cancels
  {
    if actions != [] {
      var init := actions[..|actions| - 1];
      var before := Exec(cfg, Init(cfg), init).value;
      CancelsCounted(cfg, init, before);
      StepCountsCancels(cfg, before, actions[|actions| - 1]);
    } else {
      assert s.commands[..0] == [];
    }
  }

  /**
   Between events every barge-in that was the first to interrupt its response has been answered
   with a cancel, sent or, as many times as its write failed, lost; and there was no other cancel.
   At every moment cancels sent never outnumber responses created.
   */
  lemma CancelsSent(cfg: Config, actions: seq<Action>, s: State)
    requires Reaches(cfg, actions, s)
    ensures Handling.BetweenEvents(s.e) ==>
              Count(s.commands, Cancel) + Count(actions, OfEvents(Fails)) == FirstBargeIns(Handling.Received(actions))
    ensures Count(s.commands, Cancel) + Count(actions, OfEvents(Fails))
         <= Count(Handling.Received(actions), ResponseCreated)
  {
    CancelsCounted(cfg, actions, s);
    Handling.ReceivedAreHandled(cfg, actions, s);
    Handling.HandledHolds(cfg, actions, s);
    Handling.RestOnlyAdds(s.e, Handling.ViewOf(s));
    EventsAreCounted(s.talk.handled);
    CancelsAreFirstBargeIns(s.talk.handled);
  }

  // ---------- Caller audio ----------

  /** The packets that reads returned in the course of a run, in order. */
  function PacketsRead(actions: seq<Action>): seq<seq<byte>> {
    if actions == [] then []
    else PacketsRead(actions[..|actions| - 1]) + PacketOf(actions[|actions| - 1])
  }

  function PacketOf(a: Action): seq<seq<byte>> {
    if a.OfCaller? && a.choice.ReadReturns? && a.choice.chunk != [] then [a.choice.chunk] else []
  }

  /** The packets forwarded to the model, in order. */
  function Appended(commands: seq<Command>): seq<seq<byte>> {
    if commands == [] then []
    else
      Appended(commands[..|commands| - 1])
        + if commands[|commands| - 1].Append? then [commands[|commands| - 1].audio] else []
  }

  lemma AppendedSnoc(commands: seq<Command>, command: Command)
    ensures Appended(commands + [command])
         == Appended(commands) + if command.Append? then [command.audio] else []
  {
    assert (commands + [command])[..|commands|] == commands;
  }

  /** Before a read all has been forwarded, during an append all but that packet; a failed append ends it. */
  ghost predicate ForwardInv(s: State, packets: seq<seq<byte>>, failed: nat) {
    match s.c
    case CTop => packets == Appended(s.commands) && failed == 0
    case CRead => packets == Appended(s.commands) && failed == 0
    case CAppend(chunk, _) => packets == Appended(s.commands) + [chunk] && failed == 0
    case CAppendFailed => Appended(s.commands) <= packets && |packets| == |Appended(s.commands)| + failed && failed == 1
    case _ => Appended(s.commands) <= packets && |packets| == |Appended(s.commands)| + failed && failed <= 1
  }

  function FailsNow(a: Action): nat {
    if a == OfCaller(Fails) then 1 else 0
  }

  lemma CallerKeepsForward(cfg: Config, s: State, choice: Choice, packets: seq<seq<byte>>, failed: nat)
    requires ForwardInv(s, packets, failed) && CallerStep(cfg, s, choice).Some?
    ensures ForwardInv(CallerStep(cfg, s, choice).value,
                       packets + PacketOf(OfCaller(choice)), failed + FailsNow(OfCaller(choice)))
  {
    assert packets + [] == packets;
    if s.c.CAppend? {
      AppendedSnoc(s.commands, Append(s.c.chunk));
    }
  }

  lemma OthersAppendNothing(cfg: Config, s: State, a: Action)
    requires Step(cfg, s, a).Some? && !a.OfCaller?
    ensures var t := Step(cfg, s, a).value; Appended(t.commands) == Appended(s.commands) && t.c == s.c
  {
    match a
    case OfEvents(choice) =>
      Handling.EventsCommand(cfg, s, choice);
      AppendedSnoc(s.commands, Cancel);
      assert s.commands + [] == s.commands;
    case OfMain(choice) => AppendedSnoc(s.commands, ResponseCreate);
    case _ =>
  }

  lemma StepKeepsForward(cfg: Config, s: State, a: Action, packets: seq<seq<byte>>, failed: nat)
    requires ForwardInv(s, packets, failed) && Step(cfg, s, a).Some?
    ensures ForwardInv(Step(cfg, s, a).value, packets + PacketOf(a), failed + FailsNow(a))
  {
    if a.OfCaller? {
      CallerKeepsForward(cfg, s, a.choice, packets, failed);
    } else {
      OthersAppendNothing(cfg, s, a);
      assert packets + [] == packets;
    }
  }

  lemma {:induction false} ForwardHolds(cfg: Config, actions: seq<Action>, s: State)
    requires Reaches(cfg, actions, s)
    ensures ForwardInv(s, PacketsRead(actions), Count(actions, OfCaller(Fails)))
  {
    if actions != [] {
      var init := actions[..|actions| - 1];
      var before := Exec(cfg, Init(cfg), init).value;
      ForwardHolds(cfg, init, before);
      StepKeepsForward(cfg, before, actions[|actions| - 1], PacketsRead(init), Count(init, OfCaller(Fails)));
    } else {
      AppendedSnoc([], SessionUpdate(cfg.format));
      assert s.commands == [] + [SessionUpdate(cfg.format)];
    }
  }

  /**
   The model is sent the packets that reads returned, unchanged, in order and none twice. Missing
   are at most the last: the one being sent, or the one whose write failed, after which none is read.
   */
  lemma CallerAudioIsForwarded(cfg: Config, actions: seq<Action>, s: State)
    requires Reaches(cfg, actions, s)
    ensures Appended(s.commands) <= PacketsRead(actions)
    ensures |PacketsRead(actions)|
         == |Appended(s.commands)| + Count(actions, OfCaller(Fails)) + if s.c.CAppend? then 1 else 0
    ensures Count(actions, OfCaller(Fails)) <= 1
    ensures s.c.CTop? || s.c.CRead? ==> Appended(s.commands) == PacketsRead(actions)
  {
    ForwardHolds(cfg, actions, s);
  }
}

/**
 The cancel race between bridge and model service. Client and server talk over two FIFO
 channels: commands one way, events the other, through the socket and then the client's
 bounded event channel. Tags on messages (which response an event belongs to, which response a
 cancel was meant for and how much had been handled when it was sent) exist only for the
 statements; no step of the client reads them.

 What the server may do is an assumption, spelled out in `ServerStep`: it has at most one
 response at a time, announces it before anything else of it and ends it with done, and it
 refuses a cancel only when no response is active.
 */
module ResponseProtocol {
  import opened Basics
  import opened Realtime
  import Dialogue

  const EVENTS_CAPACITY := 64

  datatype Tagged = Tagged(ev: ServerEvent, id: nat)

  datatype Request = Create | CancelFor(id: nat, at: nat)

  /** A cancel refused or accepted: for which response, sent after how many handled events, answered after how many emitted. */
  datatype Answer = Answer(id: nat, at: nat, when: nat, hit: Option<nat>)

  /** A barge-in that found a response to cancel: which one, and its place among the handled events. */
  datatype Try = Try(id: nat, at: nat)

  datatype Server = Server(active: Option<nat>, next: nat, inbox: seq<Request>)

  datatype Link = Link(socket: seq<Tagged>, events: seq<Tagged>, reading: bool)

  datatype Client = Client(responseActive: bool, tracked: nat, sending: bool)

  datatype History = History(emitted: seq<Tagged>, handled: seq<Tagged>, tries: seq<Try>, asked: seq<Request>, answers: seq<Answer>)

  datatype System = System(server: Server, link: Link, client: Client, h: History)

  /** The greeting has been requested; nothing else has happened. */
  const INITIAL := System(Server(None, 0, [Create]), Link([], [], true), Client(false, 0, false), History([], [], [], [], []))

  datatype Action =
    | Begin                       // the server starts a response by itself
    | Say(ev: ServerEvent)        // something about the active response
    | Finish
    | Notice(ev: ServerEvent)     // something about the caller or the session
    | Serve                       // the server takes the next command
    | Forward                     // readLoop moves one event on
    | StopReading
    | Handle                      // the event handler takes the next event
    | SendCancel(ok: bool)

  // ---------- The server, by assumption ----------

  predicate AboutResponse(ev: ServerEvent) {
    ev.AudioDelta? || ev.AudioDone? || ev.OutTranscript?
  }

  predicate AboutCall(ev: ServerEvent) {
    || ev.SpeechStarted? || ev.SpeechStopped? || ev.InTranscript? || ev.SessionUpdated? || ev.Other?
    || (ev.Fault? && ev.code != Some(CancelNotActive))
  }

  function Emit(s: System, m: Tagged): System {
    s.(link := s.link.(socket := s.link.socket + [m]), h := s.h.(emitted := s.h.emitted + [m]))
  }

  function BeginResponse(s: System): System {
    Emit(s, Tagged(ResponseCreated, s.server.next)).(
      server := s.server.(active := Some(s.server.next), next := s.server.next + 1))
  }

  /** A cancel stops generation of whatever is active, if anything is; done follows later. */
  function ServeCancel(s: System, id: nat, at: nat): System {
    var answered := s.(h := s.h.(answers := s.h.answers + [Answer(id, at, |s.h.emitted|, s.server.active)]));
    if s.server.active.None? then Emit(answered, Tagged(Fault(Some(CancelNotActive)), id)) else answered
  }

  function ServerStep(s: System, a: Action): Option<System> {
    match a
    case Begin => if s.server.active.None? then Some(BeginResponse(s)) else None
    case Say(ev) =>
      if s.server.active.Some? && AboutResponse(ev) then Some(Emit(s, Tagged(ev, s.server.active.value))) else None
    case Finish =>
      if s.server.active.Some? then
        Some(Emit(s, Tagged(ResponseDone, s.server.active.value)).(server := s.server.(active := None)))
      else None
    case Notice(ev) => if AboutCall(ev) then Some(Emit(s, Tagged(ev, s.server.next))) else None
    case Serve =>
      if s.server.inbox == [] then None
      else
        var rest := s.(server := s.server.(inbox := s.server.inbox[1..]));
        match s.server.inbox[0] {
        case Create =>
          Some(if s.server.active.None? then BeginResponse(rest)
               else Emit(rest, Tagged(Fault(None), s.server.next)))
        case CancelFor(id, at) => Some(ServeCancel(rest, id, at))
        }
    case _ => None
  }

  // ---------- The client ----------

  /** What the handler does to the flag, and whether it goes on to cancel. */
  function NextActive(active: bool, ev: ServerEvent): bool {
    ev.ResponseCreated? || (active && !ev.ResponseDone? && !ev.SpeechStarted?)
  }

  predicate WantsCancel(active: bool, ev: ServerEvent) {
    ev.SpeechStarted? && active
  }

  /** This is the bridge's own handler, as far as the flag and the cancels go. */
  lemma FlagIsTheHandlers(v: Dialogue.View, ev: ServerEvent)
    ensures Dialogue.Handle(v, ev).responseActive == NextActive(v.responseActive, ev)
    ensures Dialogue.Handle(v, ev).cancels == v.cancels + if WantsCancel(v.responseActive, ev) then 1 else 0
  {
  }

  function HandleNext(s: System): System
    requires s.link.events != []
  {
    var m := s.link.events[0];
    var wants := WantsCancel(s.client.responseActive, m.ev);
    System(
      s.server,
      s.link.(events := s.link.events[1..]),
      Client(NextActive(s.client.responseActive, m.ev), if m.ev.ResponseCreated? then m.id else s.client.tracked, wants),
      s.h.(handled := s.h.handled + [m],
           tries := if wants then s.h.tries + [Try(s.client.tracked, |s.h.handled|)] else s.h.tries))
  }

  function ClientStep(s: System, a: Action): Option<System> {
    match a
    case Forward =>
      if s.link.socket != [] && s.link.reading && |s.link.events| < EVENTS_CAPACITY then
        Some(s.(link := s.link.(socket := s.link.socket[1..], events := s.link.events + [s.link.socket[0]])))
      else None
    case StopReading => Some(s.(link := s.link.(reading := false)))
    case Handle => if s.link.events != [] && !s.client.sending then Some(HandleNext(s)) else None
    case SendCancel(ok) =>
      if !s.client.sending then None
      else
        var request := CancelFor(s.client.tracked, |s.h.handled|);
        var sent := s.(client := s.client.(sending := false));
        Some(if ok then sent.(server := s.server.(inbox := s.server.inbox + [request]), h := s.h.(asked := s.h.asked + [request]))
             else sent)
    case _ => None
  }

  function Step(s: System, a: Action): Option<System> {
    match a
    case Forward => ClientStep(s, a)
    case StopReading => ClientStep(s, a)
    case Handle => ClientStep(s, a)
    case SendCancel(_) => ClientStep(s, a)
    case _ => ServerStep(s, a)
  }

  function Exec(actions: seq<Action>): Option<System> {
    if actions == [] then Some(INITIAL)
    else
      match Exec(actions[..|actions| - 1])
      case None => None
      case Some(s) => Step(s, actions[|actions| - 1])
  }

  // ---------- Reading a stream of events ----------

  /** After some events: no response open and the next to come is `next`, or `id` is open. */
  datatype Phase = Idle(next: nat) | Open(id: nat) | Garbled

  function Advance(p: Phase, m: Tagged): Phase {
    match m.ev
    case ResponseCreated => if p == Idle(m.id) then Open(m.id) else Garbled
    case ResponseDone => if p == Open(m.id) then Idle(m.id + 1) else Garbled
    case _ => p
  }

  function PhaseOf(es: seq<Tagged>): Phase {
    if es == [] then Idle(0) else Advance(PhaseOf(es[..|es| - 1]), es[|es| - 1])
  }

  lemma PhaseSnoc(es: seq<Tagged>, m: Tagged)
    ensures PhaseOf(es + [m]) == Advance(PhaseOf(es), m)
  {
    assert (es + [m])[..|es|] == es;
  }

  /** Responses up to but not including this one have been announced. */
  function Bound(p: Phase): nat {
    match p case Idle(next) => next case Open(id) => id + 1 case Garbled => 0
  }

  lemma {:induction false} GarbledStays(es: seq<Tagged>, more: seq<Tagged>)
    requires PhaseOf(es) == Garbled
    ensures PhaseOf(es + more) == Garbled
  {
    if more == [] {
      assert es + more == es;
    } else {
      assert es + more == (es + more[..|more| - 1]) + [more[|more| - 1]];
      GarbledStays(es, more[..|more| - 1]);
      PhaseSnoc(es + more[..|more| - 1], more[|more| - 1]);
    }
  }

  /** An open response has been announced and not finished. */
  lemma {:induction false} OpenMeansAnnounced(es: seq<Tagged>, id: nat)
    requires PhaseOf(es) == Open(id)
    ensures Tagged(ResponseCreated, id) in es && Tagged(ResponseDone, id) !in es
  {
    var init, last := es[..|es| - 1], es[|es| - 1];
    assert es == init + [last];
    if last.ev.ResponseCreated? {
      BoundOnDone(init, id);
    } else {
      OpenMeansAnnounced(init, id);
    }
  }

  lemma BoundGrows(p: Phase, m: Tagged)
    requires Advance(p, m) != Garbled
    ensures p != Garbled && Bound(p) <= Bound(Advance(p, m))
    ensures m.ev.ResponseDone? ==> p == Open(m.id) && Advance(p, m) == Idle(m.id + 1)
    ensures p.Open? && Advance(p, m) != p ==> m == Tagged(ResponseDone, p.id)
  {
  }

  /** No response past the bound has finished; an open one has not either. */
  lemma {:induction false} BoundOnDone(es: seq<Tagged>, id: nat)
    requires PhaseOf(es) != Garbled && Bound(PhaseOf(es)) <= id
    ensures Tagged(ResponseDone, id) !in es
  {
    if es != [] {
      var init, last := es[..|es| - 1], es[|es| - 1];
      BoundGrows(PhaseOf(init), last);
      BoundOnDone(init, id);
      assert last != Tagged(ResponseDone, id);
      assert es == init + [last];
    }
  }

  /** A response open at one point and not open later has been finished in between. */
  lemma {:induction false} OpenThenNot(es: seq<Tagged>, more: seq<Tagged>, id: nat)
    requires PhaseOf(es) == Open(id) && PhaseOf(es + more) != Garbled
    ensures PhaseOf(es + more) == Open(id) ==> Tagged(ResponseDone, id) !in more
    ensures PhaseOf(es + more) != Open(id) ==> Tagged(ResponseDone, id) in more && Bound(PhaseOf(es + more)) > id
    ensures PhaseOf(es + more).Open? ==> PhaseOf(es + more).id >= id
  {
    if more == [] {
      assert es + more == es;
    } else {
      var init, last := more[..|more| - 1], more[|more| - 1];
      assert es + more == (es + init) + [last];
      PhaseSnoc(es + init, last);
      BoundGrows(PhaseOf(es + init), last);
      OpenThenNot(es, init, id);
      assert more == init + [last];
      OpenThenNotStep(PhaseOf(es + init), last, id);
    }
  }

  lemma OpenThenNotStep(p: Phase, m: Tagged, id: nat)
    requires Advance(p, m) != Garbled && p != Garbled
    requires p == Open(id) || (Bound(p) > id && (p.Open? ==> p.id >= id))
    ensures p == Open(id) && Advance(p, m) != Open(id) ==> m == Tagged(ResponseDone, id) && Advance(p, m) == Idle(id + 1)
    ensures p == Open(id) && Advance(p, m) == Open(id) ==> m != Tagged(ResponseDone, id)
    ensures p != Open(id) && p.Idle? ==> Advance(p, m) != Open(id)
    ensures Advance(p, m).Open? ==> Advance(p, m).id >= id
  {
  }

  /** After the first `at` of these events response `id` is open. */
  predicate OpenAt(es: seq<Tagged>, at: nat, id: nat) {
    at <= |es| && PhaseOf(es[..at]) == Open(id)
  }

  lemma OpenAtExtends(es: seq<Tagged>, m: Tagged)
    ensures forall at: nat, id :: OpenAt(es, at, id) ==> OpenAt(es + [m], at, id)
    ensures forall at: nat, id :: at <= |es| && OpenAt(es + [m], at, id) ==> OpenAt(es, at, id)
  {
    forall at: nat | at <= |es| ensures (es + [m])[..at] == es[..at] {
    }
  }

  // ---------- Invariants ----------

  ghost predicate LinkInv(s: System) {
    && s.h.emitted == s.h.handled + s.link.events + s.link.socket
    && |s.link.events| <= EVENTS_CAPACITY
  }

  ghost predicate ServerInv(s: System) {
    && PhaseOf(s.h.emitted) == ExpectedPhase(s.server)
    && (s.server.active.Some? ==> s.server.active.value + 1 == s.server.next)
  }

  /** A try is the first barge-in handled while its response was open. */
  ghost predicate FirstBargeIn(handled: seq<Tagged>, t: Try) {
    && t.at < |handled| && handled[t.at].ev.SpeechStarted?
    && OpenAt(handled, t.at, t.id)
    && forall j: nat :: j < t.at && handled[j].ev.SpeechStarted? ==> !OpenAt(handled, j, t.id)
  }

  predicate Tried(tries: seq<Try>, id: nat) {
    exists i :: 0 <= i < |tries| && tries[i].id == id
  }

  ghost predicate TriesInv(handled: seq<Tagged>, tries: seq<Try>) {
    && (forall i :: 0 <= i < |tries| ==> FirstBargeIn(handled, tries[i]))
    && (forall i, j :: 0 <= i < j < |tries| ==> tries[i].id < tries[j].id)
    && (forall j: nat, id :: j < |handled| && handled[j].ev.SpeechStarted? && OpenAt(handled, j, id) ==> Tried(tries, id))
    && (forall i :: 0 <= i < |tries| ==> tries[i].id < Bound(PhaseOf(handled)))
  }

  ghost predicate ClientInv(c: Client, handled: seq<Tagged>, tries: seq<Try>) {
    var p := PhaseOf(handled);
    && p != Garbled
    && (p.Open? ==> c.tracked == p.id)
    && (p.Open? ==> (c.responseActive <==> !Tried(tries, p.id)))
    && (p.Idle? ==> !c.responseActive)
    && (c.sending ==> p.Open? && !c.responseActive)
  }

  /** Cancels sent were sent with their response open, each for a later response than the one before. */
  ghost predicate AskedInv(c: Client, handled: seq<Tagged>, asked: seq<Request>) {
    && (forall i :: 0 <= i < |asked| ==> asked[i].CancelFor? && OpenAt(handled, asked[i].at, asked[i].id))
    && (forall i, j :: 0 <= i < j < |asked| ==> asked[i].id < asked[j].id)
    && (forall i :: 0 <= i < |asked| ==>
          asked[i].id < if c.responseActive || c.sending then c.tracked else Bound(PhaseOf(handled)))
  }

  ghost predicate InboxInv(handled: seq<Tagged>, inbox: seq<Request>) {
    forall i :: 0 <= i < |inbox| && inbox[i].CancelFor? ==> OpenAt(handled, inbox[i].at, inbox[i].id)
  }

  ghost predicate AnswerFits(emitted: seq<Tagged>, a: Answer) {
    && a.at <= a.when <= |emitted|
    && OpenAt(emitted, a.at, a.id)
    && (a.hit.Some? ==> OpenAt(emitted, a.when, a.hit.value))
    && (a.hit.None? ==>
          && PhaseOf(emitted[..a.when]).Idle?
          && a.when < |emitted| && emitted[a.when] == Tagged(Fault(Some(CancelNotActive)), a.id))
  }

  ghost predicate AnswersInv(emitted: seq<Tagged>, answers: seq<Answer>) {
    forall i :: 0 <= i < |answers| ==> AnswerFits(emitted, answers[i])
  }

  ghost predicate Inv(s: System) {
    && LinkInv(s) && ServerInv(s)
    && TriesInv(s.h.handled, s.h.tries)
    && ClientInv(s.client, s.h.handled, s.h.tries)
    && AskedInv(s.client, s.h.handled, s.h.asked)
    && InboxInv(s.h.handled, s.server.inbox)
    && AnswersInv(s.h.emitted, s.h.answers)
  }

  lemma AnswersKept(emitted: seq<Tagged>, m: Tagged, answers: seq<Answer>)
    requires AnswersInv(emitted, answers)
    ensures AnswersInv(emitted + [m], answers)
  {
    OpenAtExtends(emitted, m);
    forall i | 0 <= i < |answers| ensures AnswerFits(emitted + [m], answers[i]) {
      assert AnswerFits(emitted, answers[i]);
      assert (emitted + [m])[..answers[i].when] == emitted[..answers[i].when];
    }
  }

  /** Emitting keeps everything but the server's own phase. */
  lemma EmitKeeps(s: System, m: Tagged)
    requires Inv(s)
    ensures LinkInv(Emit(s, m))
    ensures PhaseOf(Emit(s, m).h.emitted) == Advance(PhaseOf(s.h.emitted), m)
    ensures AnswersInv(Emit(s, m).h.emitted, s.h.answers)
  {
    PhaseSnoc(s.h.emitted, m);
    AnswersKept(s.h.emitted, m, s.h.answers);
    assert s.h.handled + s.link.events + (s.link.socket + [m]) == s.h.handled + s.link.events + s.link.socket + [m];
  }

  lemma ServeCancelKeepsInv(s: System, id: nat, at: nat)
    requires Inv(s) && OpenAt(s.h.handled, at, id)
    ensures Inv(ServeCancel(s, id, at))
  {
    var es := s.h.emitted;
    var a := Answer(id, at, |es|, s.server.active);
    assert es[..at] == s.h.handled[..at];
    assert es[..|es|] == es;
    var refusal := Tagged(Fault(Some(CancelNotActive)), id);
    if s.server.active.None? {
      EmitKeeps(s, refusal);
      assert (es + [refusal])[..|es|] == es;
      OpenAtExtends(es, refusal);
      assert AnswerFits(es + [refusal], a);
      assert AnswersInv(es + [refusal], s.h.answers + [a]);
    } else {
      assert AnswerFits(es, a);
      assert AnswersInv(es, s.h.answers + [a]);
    }
  }

  function ExpectedPhase(server: Server): Phase {
    if server.active.Some? then Open(server.active.value) else Idle(server.next)
  }

  lemma EmittingKeepsInv(s: System, m: Tagged, server: Server)
    requires Inv(s) && server.inbox == s.server.inbox
    requires Advance(ExpectedPhase(s.server), m) == ExpectedPhase(server)
    requires server.active.Some? ==> server.active.value + 1 == server.next
    ensures Inv(Emit(s, m).(server := server))
  {
    EmitKeeps(s, m);
  }

  lemma PoppingKeepsInv(s: System)
    requires Inv(s) && s.server.inbox != []
    ensures Inv(s.(server := s.server.(inbox := s.server.inbox[1..])))
  {
  }

  lemma ServeKeepsInv(s: System)
    requires Inv(s) && ServerStep(s, Serve).Some?
    ensures Inv(ServerStep(s, Serve).value)
  {
    var rest := s.(server := s.server.(inbox := s.server.inbox[1..]));
    PoppingKeepsInv(s);
    match s.server.inbox[0]
    case Create =>
      if s.server.active.None? {
        BeginKeepsInv(rest);
      } else {
        EmittingKeepsInv(rest, Tagged(Fault(None), s.server.next), rest.server);
      }
    case CancelFor(id, at) =>
      assert s.server.inbox[0].CancelFor?;
      ServeCancelKeepsInv(rest, id, at);
  }

  lemma BeginKeepsInv(s: System)
    requires Inv(s) && s.server.active.None?
    ensures Inv(BeginResponse(s))
  {
    EmittingKeepsInv(s, Tagged(ResponseCreated, s.server.next),
                     s.server.(active := Some(s.server.next), next := s.server.next + 1));
  }

  lemma ServerKeepsInv(s: System, a: Action)
    requires Inv(s) && ServerStep(s, a).Some?
    ensures Inv(ServerStep(s, a).value)
  {
    match a
    case Begin => BeginKeepsInv(s);
    case Say(ev) => EmittingKeepsInv(s, Tagged(ev, s.server.active.value), s.server);
    case Finish =>
      EmittingKeepsInv(s, Tagged(ResponseDone, s.server.active.value), s.server.(active := None));
    case Notice(ev) => EmittingKeepsInv(s, Tagged(ev, s.server.next), s.server);
    case Serve => ServeKeepsInv(s);
    case _ =>
  }

  lemma ForwardKeepsInv(s: System)
    requires Inv(s) && ClientStep(s, Forward).Some?
    ensures Inv(ClientStep(s, Forward).value)
  {
    var e, k := s.link.events, s.link.socket;
    assert k == [k[0]] + k[1..];
    assert s.h.handled + (e + [k[0]]) + k[1..] == s.h.handled + e + k;
  }

  lemma SendKeepsInv(s: System, ok: bool)
    requires Inv(s) && ClientStep(s, SendCancel(ok)).Some?
    ensures Inv(ClientStep(s, SendCancel(ok)).value)
  {
    assert s.h.handled[..|s.h.handled|] == s.h.handled;
  }

  // ---------- Handling an event ----------

  /** The phase does not go wrong on the way to the client. */
  lemma HandledPhase(s: System)
    requires Inv(s) && s.link.events != []
    ensures PhaseOf(s.h.handled + [s.link.events[0]]) != Garbled
  {
    var longer := s.h.handled + [s.link.events[0]];
    var more := s.link.events[1..] + s.link.socket;
    assert longer + more == s.h.emitted;
    if PhaseOf(longer) == Garbled {
      GarbledStays(longer, more);
    }
  }

  lemma FirstBargeInExtends(handled: seq<Tagged>, m: Tagged, t: Try)
    requires FirstBargeIn(handled, t)
    ensures FirstBargeIn(handled + [m], t)
  {
    OpenAtExtends(handled, m);
  }

  /** The response a barge-in cancels has not been tried before, and comes after all that have. */
  lemma NewTryIsLast(handled: seq<Tagged>, tries: seq<Try>, id: nat)
    requires TriesInv(handled, tries) && PhaseOf(handled) == Open(id) && !Tried(tries, id)
    ensures forall i :: 0 <= i < |tries| ==> tries[i].id < id
  {
    forall i | 0 <= i < |tries| ensures tries[i].id < id {
      assert tries[i].id < id + 1;
    }
  }

  lemma NewTryIsFirstBargeIn(handled: seq<Tagged>, m: Tagged, tries: seq<Try>, id: nat)
    requires TriesInv(handled, tries) && PhaseOf(handled) == Open(id) && !Tried(tries, id) && m.ev.SpeechStarted?
    ensures FirstBargeIn(handled + [m], Try(id, |handled|))
  {
    var longer := handled + [m];
    assert longer[..|handled|] == handled;
    OpenAtExtends(handled, m);
    forall j: nat | j < |handled| && longer[j].ev.SpeechStarted? ensures !OpenAt(longer, j, id) {
      assert handled[j] == longer[j];
    }
  }

  /** A new try is added exactly when the handler wants a cancel. */
  function TriesAfter(handled: seq<Tagged>, m: Tagged, tries: seq<Try>, active: bool): seq<Try> {
    if WantsCancel(active, m.ev) && PhaseOf(handled).Open? then tries + [Try(PhaseOf(handled).id, |handled|)] else tries
  }

  lemma TriedAfter(handled: seq<Tagged>, m: Tagged, tries: seq<Try>, active: bool, id: nat)
    ensures Tried(TriesAfter(handled, m, tries, active), id)
       <==> Tried(tries, id) || (WantsCancel(active, m.ev) && PhaseOf(handled) == Open(id))
  {
    var tries' := TriesAfter(handled, m, tries, active);
    if Tried(tries, id) {
      var i :| 0 <= i < |tries| && tries[i].id == id;
      assert tries'[i].id == id;
    }
    if WantsCancel(active, m.ev) && PhaseOf(handled) == Open(id) {
      assert tries'[|tries|].id == id;
    }
  }

  lemma TriesAreFirst(handled: seq<Tagged>, m: Tagged, tries: seq<Try>, active: bool)
    requires TriesInv(handled, tries)
    requires PhaseOf(handled).Open? && active ==> !Tried(tries, PhaseOf(handled).id)
    ensures var tries' := TriesAfter(handled, m, tries, active);
            && (forall i :: 0 <= i < |tries'| ==> FirstBargeIn(handled + [m], tries'[i]))
            && (forall i, j :: 0 <= i < j < |tries'| ==> tries'[i].id < tries'[j].id)
            && (forall i :: 0 <= i < |tries'| ==> tries'[i].id < Bound(PhaseOf(handled)))
  {
    forall i | 0 <= i < |tries| ensures FirstBargeIn(handled + [m], tries[i]) {
      FirstBargeInExtends(handled, m, tries[i]);
    }
    if WantsCancel(active, m.ev) && PhaseOf(handled).Open? {
      NewTryIsLast(handled, tries, PhaseOf(handled).id);
      NewTryIsFirstBargeIn(handled, m, tries, PhaseOf(handled).id);
    }
  }

  lemma TriesAreComplete(handled: seq<Tagged>, m: Tagged, tries: seq<Try>, active: bool)
    requires TriesInv(handled, tries)
    requires PhaseOf(handled).Open? && !active ==> Tried(tries, PhaseOf(handled).id)
    ensures forall j: nat, id :: j < |handled + [m]| && (handled + [m])[j].ev.SpeechStarted? && OpenAt(handled + [m], j, id)
              ==> Tried(TriesAfter(handled, m, tries, active), id)
  {
    var longer := handled + [m];
    OpenAtExtends(handled, m);
    assert longer[..|handled|] == handled;
    forall j: nat, id | j < |longer| && longer[j].ev.SpeechStarted? && OpenAt(longer, j, id)
      ensures Tried(TriesAfter(handled, m, tries, active), id)
    {
      TriedAfter(handled, m, tries, active, id);
      if j < |handled| {
        assert handled[j] == longer[j] && OpenAt(handled, j, id);
      }
    }
  }

  lemma TriesKept(handled: seq<Tagged>, m: Tagged, tries: seq<Try>, active: bool)
    requires TriesInv(handled, tries) && PhaseOf(handled) != Garbled && PhaseOf(handled + [m]) != Garbled
    requires PhaseOf(handled).Open? ==> (active <==> !Tried(tries, PhaseOf(handled).id))
    ensures TriesInv(handled + [m], TriesAfter(handled, m, tries, active))
  {
    PhaseSnoc(handled, m);
    BoundGrows(PhaseOf(handled), m);
    TriesAreFirst(handled, m, tries, active);
    TriesAreComplete(handled, m, tries, active);
  }

  function ClientAfter(c: Client, m: Tagged): Client {
    Client(NextActive(c.responseActive, m.ev), if m.ev.ResponseCreated? then m.id else c.tracked,
           WantsCancel(c.responseActive, m.ev))
  }

  lemma AskedKept(c: Client, handled: seq<Tagged>, m: Tagged, tries: seq<Try>, asked: seq<Request>)
    requires AskedInv(c, handled, asked) && ClientInv(c, handled, tries) && !c.sending
    requires PhaseOf(handled + [m]) != Garbled
    ensures AskedInv(ClientAfter(c, m), handled + [m], asked)
  {
    PhaseSnoc(handled, m);
    OpenAtExtends(handled, m);
    var p, p' := PhaseOf(handled), PhaseOf(handled + [m]);
    BoundGrows(p, m);
    var c' := ClientAfter(c, m);
    assert (if c.responseActive then c.tracked else Bound(p)) <= if c'.responseActive || c'.sending then c'.tracked else Bound(p');
  }

  lemma ClientKept(c: Client, handled: seq<Tagged>, m: Tagged, tries: seq<Try>)
    requires ClientInv(c, handled, tries) && TriesInv(handled, tries) && !c.sending
    requires PhaseOf(handled + [m]) != Garbled
    ensures ClientInv(ClientAfter(c, m), handled + [m], TriesAfter(handled, m, tries, c.responseActive))
  {
    PhaseSnoc(handled, m);
    var p' := PhaseOf(handled + [m]);
    if p'.Open? {
      TriedAfter(handled, m, tries, c.responseActive, p'.id);
      if m.ev.ResponseCreated? {
        NotYetTried(handled, tries, m.id);
      }
    }
  }

  lemma NotYetTried(handled: seq<Tagged>, tries: seq<Try>, id: nat)
    requires TriesInv(handled, tries) && Bound(PhaseOf(handled)) <= id
    ensures !Tried(tries, id)
  {
    forall i | 0 <= i < |tries| ensures tries[i].id != id {
      assert tries[i].id < Bound(PhaseOf(handled));
    }
  }

  lemma HandleKeepsLink(s: System)
    requires LinkInv(s) && s.link.events != []
    ensures LinkInv(HandleNext(s))
  {
    var m := s.link.events[0];
    assert s.link.events == [m] + s.link.events[1..];
    assert (s.h.handled + [m]) + s.link.events[1..] + s.link.socket == s.h.handled + s.link.events + s.link.socket;
  }

  lemma InboxKept(handled: seq<Tagged>, m: Tagged, inbox: seq<Request>)
    requires InboxInv(handled, inbox)
    ensures InboxInv(handled + [m], inbox)
  {
    OpenAtExtends(handled, m);
  }

  lemma HandleKeepsInv(s: System)
    requires Inv(s) && s.link.events != [] && !s.client.sending
    ensures Inv(HandleNext(s))
  {
    var m, handled := s.link.events[0], s.h.handled;
    var t := HandleNext(s);
    HandleKeepsLink(s);
    HandledPhase(s);
    InboxKept(handled, m, s.server.inbox);
    assert t.h.tries == TriesAfter(handled, m, s.h.tries, s.client.responseActive);
    assert t.client == ClientAfter(s.client, m);
    TriesKept(handled, m, s.h.tries, s.client.responseActive);
    AskedKept(s.client, handled, m, s.h.tries, s.h.asked);
    ClientKept(s.client, handled, m, s.h.tries);
  }

  lemma StepKeepsInv(s: System, a: Action)
    requires Inv(s) && Step(s, a).Some?
    ensures Inv(Step(s, a).value)
  {
    match a
    case Forward => ForwardKeepsInv(s);
    case StopReading =>
    case Handle => HandleKeepsInv(s);
    case SendCancel(ok) => SendKeepsInv(s, ok);
    case _ => ServerKeepsInv(s, a);
  }

  lemma {:induction false} RunKeepsInv(actions: seq<Action>, s: System)
    requires Exec(actions) == Some(s)
    ensures Inv(s)
  {
    if actions != [] {
      var init := actions[..|actions| - 1];
      RunKeepsInv(init, Exec(init).value);
      StepKeepsInv(Exec(init).value, actions[|actions| - 1]);
    }
  }

  // ---------- Results ----------

  /** Events are handled in the order the server emitted them, none lost while the link is read. */
  lemma EventsInOrder(actions: seq<Action>, s: System)
    requires Exec(actions) == Some(s)
    ensures s.h.handled <= s.h.emitted
    ensures s.h.emitted == s.h.handled + s.link.events + s.link.socket && |s.link.events| <= 64
  {
    RunKeepsInv(actions, s);
    assert LinkInv(s);
    PrefixOfSum(s.h.handled, s.link.events, s.link.socket);
  }

  lemma PrefixOfSum(a: seq<Tagged>, b: seq<Tagged>, c: seq<Tagged>)
    ensures a <= a + b + c
  {
    assert a + b + c == a + (b + c);
  }

  lemma AnswersAreFit(actions: seq<Action>, s: System, i: nat)
    requires Exec(actions) == Some(s) && i < |s.h.answers|
    ensures AnswerFits(s.h.emitted, s.h.answers[i])
    ensures PhaseOf(s.h.emitted[..s.h.answers[i].when]) != Garbled
  {
    RunKeepsInv(actions, s);
    assert AnswersInv(s.h.emitted, s.h.answers);
  }

  /**
   The race is benign. If the server refuses a cancel as not active, then when the cancel was
   sent its response had been announced to the client and its done had not been handled; but by
   the time it was refused the server had already emitted that done.
   */
  lemma CancelRaceIsBenign(actions: seq<Action>, s: System, i: nat)
    requires Exec(actions) == Some(s) && i < |s.h.answers| && s.h.answers[i].hit.None?
    ensures var a := s.h.answers[i];
            && a.at <= a.when < |s.h.emitted|
            && Tagged(ResponseCreated, a.id) in s.h.emitted[..a.at]
            && Tagged(ResponseDone, a.id) !in s.h.emitted[..a.at]
            && Tagged(ResponseDone, a.id) in s.h.emitted[a.at..a.when]
            && s.h.emitted[a.when] == Tagged(Fault(Some(CancelNotActive)), a.id)
  {
    AnswersAreFit(actions, s, i);
    var a, es := s.h.answers[i], s.h.emitted;
    OpenMeansAnnounced(es[..a.at], a.id);
    assert es[..a.at] + es[a.at..a.when] == es[..a.when];
    OpenThenNot(es[..a.at], es[a.at..a.when], a.id);
  }

  lemma InEarlierPart(whole: seq<Tagged>, part: seq<Tagged>, lo: nat, hi: nat, m: Tagged)
    requires part <= whole && lo <= hi <= |part| && m in whole[lo..hi]
    ensures m in part[..hi]
  {
    var j :| 0 <= j < hi - lo && whole[lo..hi][j] == m;
    assert part[..hi][lo + j] == m;
  }

  /** So the client has always handled the done before it gets to see the refusal. */
  lemma RefusalComesAfterDone(actions: seq<Action>, s: System, i: nat)
    requires Exec(actions) == Some(s) && i < |s.h.answers| && s.h.answers[i].hit.None?
    ensures s.h.answers[i].when < |s.h.handled| ==>
              Tagged(ResponseDone, s.h.answers[i].id) in s.h.handled[..s.h.answers[i].when]
  {
    CancelRaceIsBenign(actions, s, i);
    EventsInOrder(actions, s);
    var a := s.h.answers[i];
    if a.when < |s.h.handled| {
      InEarlierPart(s.h.emitted, s.h.handled, a.at, a.when, Tagged(ResponseDone, a.id));
    }
  }

  /**
   A cancel that is accepted never lands on an earlier response, and lands on the one it was
   meant for if and only if the server had not finished that one yet.
   */
  lemma WhereACancelLands(actions: seq<Action>, s: System, i: nat)
    requires Exec(actions) == Some(s) && i < |s.h.answers| && s.h.answers[i].hit.Some?
    ensures var a := s.h.answers[i];
            && a.at <= a.when <= |s.h.emitted|
            && a.hit.value >= a.id
            && (a.hit.value == a.id <==> Tagged(ResponseDone, a.id) !in s.h.emitted[a.at..a.when])
  {
    AnswersAreFit(actions, s, i);
    var a, es := s.h.answers[i], s.h.emitted;
    assert es[..a.at] + es[a.at..a.when] == es[..a.when];
    OpenThenNot(es[..a.at], es[a.at..a.when], a.id);
  }

  // ---------- No cancel is lost ----------

  function CancelsIn(inbox: seq<Request>): seq<Request> {
    if inbox == [] then []
    else (if inbox[0].CancelFor? then [inbox[0]] else []) + CancelsIn(inbox[1..])
  }

  lemma {:induction false} CancelsInSnoc(inbox: seq<Request>, r: Request)
    ensures CancelsIn(inbox + [r]) == CancelsIn(inbox) + if r.CancelFor? then [r] else []
  {
    if inbox == [] {
      assert [] + [r] == [r] && [r][1..] == [];
    } else {
      assert (inbox + [r])[1..] == inbox[1..] + [r];
      CancelsInSnoc(inbox[1..], r);
      Associative(if inbox[0].CancelFor? then [inbox[0]] else [], CancelsIn(inbox[1..]), if r.CancelFor? then [r] else []);
    }
  }

  /** The cancels that have been answered, in the order of the answers. */
  function Answered(answers: seq<Answer>): seq<Request> {
    seq(|answers|, i requires 0 <= i < |answers| => CancelFor(answers[i].id, answers[i].at))
  }

  lemma AnsweredSnoc(answers: seq<Answer>, a: Answer)
    ensures Answered(answers + [a]) == Answered(answers) + [CancelFor(a.id, a.at)]
  {
  }

  /** Cancels sent have been answered or are waiting; cancels tried have been sent, have failed or are about to be sent. */
  ghost predicate CancelsBalance(s: System, failed: nat) {
    && s.h.asked == Answered(s.h.answers) + CancelsIn(s.server.inbox)
    && |s.h.tries| == |s.h.asked| + failed + if s.client.sending then 1 else 0
  }

  function FailsNow(a: Action): nat {
    if a == SendCancel(false) then 1 else 0
  }

  lemma ServeKeepsBalance(s: System, failed: nat)
    requires CancelsBalance(s, failed) && Step(s, Serve).Some?
    ensures CancelsBalance(Step(s, Serve).value, failed)
  {
    var first := s.server.inbox[0];
    if first.CancelFor? {
      AnsweredSnoc(s.h.answers, Answer(first.id, first.at, |s.h.emitted|, s.server.active));
      assert Answered(s.h.answers) + ([first] + CancelsIn(s.server.inbox[1..]))
          == Answered(s.h.answers) + [first] + CancelsIn(s.server.inbox[1..]);
    }
  }

  lemma ClientKeepsBalance(s: System, a: Action, failed: nat)
    requires CancelsBalance(s, failed) && ClientStep(s, a).Some?
    ensures CancelsBalance(ClientStep(s, a).value, failed + FailsNow(a))
  {
    if a == SendCancel(true) {
      var request := CancelFor(s.client.tracked, |s.h.handled|);
      CancelsInSnoc(s.server.inbox, request);
      assert Answered(s.h.answers) + CancelsIn(s.server.inbox) + [request]
          == Answered(s.h.answers) + (CancelsIn(s.server.inbox) + [request]);
    }
  }

  lemma StepKeepsBalance(s: System, a: Action, failed: nat)
    requires CancelsBalance(s, failed) && Step(s, a).Some?
    ensures CancelsBalance(Step(s, a).value, failed + FailsNow(a))
  {
    if a == Serve {
      ServeKeepsBalance(s, failed);
    } else if ClientStep(s, a).Some? {
      ClientKeepsBalance(s, a, failed);
    }
  }

  /**
   Every barge-in that found a response to cancel led to a cancel sent, but for those whose write
   failed and one about to be written; and every cancel sent is answered, in the order sent, or
   still waits at the server.
   */
  lemma {:induction false} EveryCancelIsAnswered(actions: seq<Action>, s: System)
    requires Exec(actions) == Some(s)
    ensures s.h.asked == Answered(s.h.answers) + CancelsIn(s.server.inbox)
    ensures |s.h.tries| == |s.h.asked| + Count(actions, SendCancel(false)) + if s.client.sending then 1 else 0
  {
    if actions != [] {
      var init := actions[..|actions| - 1];
      EveryCancelIsAnswered(init, Exec(init).value);
      StepKeepsBalance(Exec(init).value, actions[|actions| - 1], Count(init, SendCancel(false)));
    }
  }

  /** No response is asked to be cancelled twice. */
  lemma OneCancelPerResponse(actions: seq<Action>, s: System, i: nat, j: nat)
    requires Exec(actions) == Some(s) && i < j < |s.h.asked|
    ensures s.h.asked[i].CancelFor? && s.h.asked[j].CancelFor? && s.h.asked[i].id < s.h.asked[j].id
  {
    RunKeepsInv(actions, s);
  }

  /**
   A response is cancelled if and only if a barge-in was handled between its created and its
   done, and then exactly once, at the first such barge-in.
   */
  lemma CancelledExactlyAtFirstBargeIn(actions: seq<Action>, s: System, id: nat)
    requires Exec(actions) == Some(s)
    ensures Tried(s.h.tries, id) <==>
              exists j: nat :: j < |s.h.handled| && s.h.handled[j].ev.SpeechStarted? && OpenAt(s.h.handled, j, id)
    ensures forall i :: 0 <= i < |s.h.tries| && s.h.tries[i].id == id ==> FirstBargeIn(s.h.handled, s.h.tries[i])
    ensures forall i, j :: 0 <= i < j < |s.h.tries| ==> s.h.tries[i].id != s.h.tries[j].id
  {
    RunKeepsInv(actions, s);
    if Tried(s.h.tries, id) {
      var i :| 0 <= i < |s.h.tries| && s.h.tries[i].id == id;
      assert FirstBargeIn(s.h.handled, s.h.tries[i]);
    }
  }

  // ---------- A cancel carries no response id ----------

  lemma Then(actions: seq<Action>, s: System, a: Action) returns (actions': seq<Action>, s': System)
    requires Exec(actions) == Some(s) && Step(s, a).Some?
    ensures Exec(actions') == Some(s') && s' == Step(s, a).value
  {
    actions', s' := actions + [a], Step(s, a).value;
    assert actions'[..|actions|] == actions;
  }

  /** The response announced and interrupted, and the cancel on its way. */
  lemma CancelUnderWay() returns (actions: seq<Action>, s: System)
    ensures Exec(actions) == Some(s)
    ensures s.server == Server(Some(0), 1, [CancelFor(0, 2)]) && s.h.answers == []
  {
    actions, s := [], INITIAL;
    actions, s := Then(actions, s, Serve);
    actions, s := Then(actions, s, Notice(SpeechStarted));
    actions, s := Then(actions, s, Forward);
    actions, s := Then(actions, s, Forward);
    assert s.link.events == [Tagged(ResponseCreated, 0), Tagged(SpeechStarted, 1)];
    actions, s := Then(actions, s, Handle);
    actions, s := Then(actions, s, Handle);
    actions, s := Then(actions, s, SendCancel(true));
  }

  /** A late cancel can land on the response after the one it was meant for. */
  lemma LateCancelHitsNextResponse() returns (actions: seq<Action>, s: System)
    ensures Exec(actions) == Some(s) && |s.h.answers| == 1
    ensures s.h.answers[0].id == 0 && s.h.answers[0].hit == Some(1)
  {
    actions, s := CancelUnderWay();
    actions, s := Then(actions, s, Finish);
    actions, s := Then(actions, s, Begin);
    actions, s := Then(actions, s, Serve);
  }
}

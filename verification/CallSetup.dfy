/** A call from the server's view of the ACCEPT to the media, when nothing is lost.  A client reads
    the server's answers and the peer's datagrams from one socket, and takes whatever comes first
    for the answer to its request, so the caller may still be pinging when the callee's punch
    arrives.  Answers may take any time; each peer's datagrams arrive in order. */
module CallSetup {
  import opened Options
  import StreamIO
  import opened Handshake
  import P2PClient
  import Reply
  import StringUtils
  import CallControllers
  import Decimal
  import Signalling

  /** The network between the two, the address of each, how many PINGs the caller had sent when the
      server accepted the call, and whether it still waits for the answer to the last of them. */
  datatype World = World(web: bool, callerAddress: string, calleeAddress: string, sent: nat, waiting: bool)

  /** Where a client stands before its handshake.  It asks for an answer that still says "awaiting"
      when its request was `early`; `ahead` counts the peer's datagrams that arrived before the
      answer, and is `None` while the answer is on its way. */
  datatype Phase =
    | Pinging(pings: nat)
    | Asking(pings: nat, early: bool, ahead: Option<nat>)
    | Entered
    | Failed
    | GaveUp

  datatype Call = Call(pair: Pair, caller: Phase, callee: Phase)

  /** The caller pings, an answer arrives, a client reads, or a peer moves in its handshake. */
  datatype Event = Ping | Arrive(side: Side) | Hear(side: Side) | Shake(move: Move)

  function PhaseOf(c: Call, s: Side): Phase { if s.Caller? then c.caller else c.callee }

  function WithPhase(c: Call, s: Side, ph: Phase): Call {
    if s.Caller? then c.(caller := ph) else c.(callee := ph)
  }

  // ----- What a client makes of a text

  function AddressFor(w: World, s: Side): string { if s.Caller? then w.calleeAddress else w.callerAddress }

  /** The server's answer to the caller's PING or to the callee's ACCEPT. */
  function AnswerText(w: World, s: Side, early: bool): string {
    if early then Reply.Message(Reply.R203)
    else Reply.Append(Reply.R201, AddressFor(w, s) + " " + if w.web then "WEB" else "LOCAL")
  }

  function AskingState(s: Side): P2PClient.State {
    if s.Caller? then P2PClient.State("", P2PClient.Awaiting, P2PClient.Initiator, Reply.R200, P2PClient.Unselected)
    else P2PClient.Initial()
  }

  function OpOf(s: Side): P2PClient.Op {
    if s.Caller? then P2PClient.PingPeer else P2PClient.AcceptPeer(0)
  }

  /** After twelve pings the caller hangs up, whatever the last one was answered. */
  function Judged(s: Side, pings: nat, text: string): Phase {
    var status := P2PClient.AfterText(AskingState(s), OpOf(s), text).status;
    if status.Error? then Failed
    else if s.Caller? && pings > P2PClient.PING_TIMEOUT + 1 then GaveUp
    else if status.Accepted? then Entered
    else Pinging(pings)
  }

  // ----- The machine

  /** The server has accepted the call; the answer to the ACCEPT is on its way. */
  function Start(w: World): Call {
    Call(Begin(w.web), if w.waiting then Asking(w.sent, true, None) else Pinging(w.sent), Asking(0, false, None))
  }

  /** A read takes the peer's datagram when the answer is not the first in the inbox. */
  predicate Overhears(c: Call, s: Side) {
    PhaseOf(c, s).Asking? && PhaseOf(c, s).ahead != Some(0) && Get(c.pair, s).inbox != []
  }

  predicate Possible(c: Call, e: Event) {
    match e
    case Ping => c.caller.Pinging?
    case Arrive(s) => PhaseOf(c, s).Asking? && PhaseOf(c, s).ahead == None
    case Hear(s) => PhaseOf(c, s).Asking? && (PhaseOf(c, s).ahead == Some(0) || Overhears(c, s))
    case Shake(m) =>
      && PhaseOf(c, m.side).Entered?
      && (Enabled(c.pair, m) || (m.Stream? && Streaming(Get(c.pair, m.side))))
  }

  /** The move an event is for the two peers; a datagram that is overheard is lost to the handshake. */
  function MoveOf(c: Call, e: Event): Option<Move> {
    match e
    case Shake(m) => if Possible(c, e) then Some(m) else None
    case Hear(s) => if Overhears(c, s) then Some(Lose(s, 0)) else None
    case _ => None
  }

  function Heard(w: World, c: Call, s: Side): string
    requires PhaseOf(c, s).Asking? && Possible(c, Hear(s))
  {
    if Overhears(c, s) then Decoded(Get(c.pair, s).inbox[0]) else AnswerText(w, s, PhaseOf(c, s).early)
  }

  function PhasesAfter(w: World, c: Call, e: Event): Call {
    if !Possible(c, e) then c
    else
      match e
      case Ping => c.(caller := Asking(c.caller.pings + 1, false, None))
      case Arrive(s) => WithPhase(c, s, PhaseOf(c, s).(ahead := Some(|Get(c.pair, s).inbox|)))
      case Hear(s) => WithPhase(c, s, Judged(s, PhaseOf(c, s).pings, Heard(w, c, s)))
      case Shake(_) => c
  }

  function PairAfter(c: Call, e: Event): Pair {
    match MoveOf(c, e)
    case None => c.pair
    case Some(m) => Handshake.Step(c.pair, m)
  }

  function After(w: World, c: Call, e: Event): Call {
    PhasesAfter(w, c, e).(pair := PairAfter(c, e))
  }

  function RunCall(w: World, events: seq<Event>): Call {
    if events == [] then Start(w)
    else After(w, RunCall(w, events[..|events| - 1]), events[|events| - 1])
  }

  /** The handshake moves of a run. */
  function Shakes(w: World, events: seq<Event>): seq<Move> {
    if events == [] then []
    else
      var k := |events| - 1;
      Shakes(w, events[..k])
      + match MoveOf(RunCall(w, events[..k]), events[k])
        case None => []
        case Some(m) => [m]
  }

  // ----- Arrivals ahead of the answer

  /** The answer that lets the client into its handshake has not arrived. */
  predicate Expecting(ph: Phase) {
    ph.Pinging? || (ph.Asking? && (ph.early || ph.ahead == None))
  }

  /** The event puts a datagram of one peer into the inbox of the other, ahead of that answer. */
  predicate Overtakes(c: Call, e: Event) {
    && e.Shake? && Possible(c, e)
    && Emits(Get(c.pair, e.move.side), e.move) != []
    && Expecting(PhaseOf(c, Other(e.move.side)))
  }

  predicate Overtaken(w: World, events: seq<Event>) {
    if events == [] then false
    else
      var k := |events| - 1;
      Overtaken(w, events[..k]) || Overtakes(RunCall(w, events[..k]), events[k])
  }

  // ----- Every run is a run of the two handshakes

  lemma {:induction false} PairIsRun(w: World, events: seq<Event>)
    ensures RunCall(w, events).pair == Handshake.Run(w.web, Shakes(w, events))
  {
    hide Handshake.Step, PhasesAfter, MoveOf;
    if events == [] {
      RunStart(w.web);
    } else {
      var k := |events| - 1;
      PairIsRun(w, events[..k]);
      var c := RunCall(w, events[..k]);
      if MoveOf(c, events[k]).Some? {
        RunSnoc(w.web, Shakes(w, events[..k]), MoveOf(c, events[k]).value);
      } else {
        assert Shakes(w, events) == Shakes(w, events[..k]);
      }
    }
  }

  /** What a client has done in a handshake it has not entered. */
  predicate Untouched(web: bool, s: Side, x: Peer) { x.(inbox := []) == Get(Begin(web), s) }

  predicate Waiting(w: World, c: Call, s: Side) {
    PhaseOf(c, s).Entered? || Untouched(w.web, s, Get(c.pair, s))
  }

  /** A move touches nothing of the other peer but its inbox; losing touches nothing else at all. */
  lemma MoveFrame(p: Pair, m: Move)
    ensures var x, y := Get(p, Other(m.side)), Get(Handshake.Step(p, m), Other(m.side));
            y == x.(inbox := x.inbox + Emits(Get(p, m.side), m))
    ensures Get(Handshake.Step(p, m), m.side) == Own(Get(p, m.side), m)
    ensures m.Lose? && m.index == 0 && Get(p, m.side).inbox != [] ==>
              Own(Get(p, m.side), m) == Get(p, m.side).(inbox := Get(p, m.side).inbox[1..])
              && Emits(Get(p, m.side), m) == []
  {
    hide AfterRead;
    if m.Lose? && m.index == 0 && Get(p, m.side).inbox != [] {
      var inbox := Get(p, m.side).inbox;
      assert inbox[..0] + inbox[1..] == inbox[1..];
    }
  }

  /** How an event changes one client. */
  lemma EventFrame(w: World, c: Call, e: Event, s: Side)
    ensures var x, x' := Get(c.pair, s), Get(After(w, c, e).pair, s);
            var ph, ph' := PhaseOf(c, s), PhaseOf(After(w, c, e), s);
            && (ph.Entered? ==> ph'.Entered?)
            && (!ph.Entered? ==>
                  x' == x.(inbox := if e == Hear(s) && Overhears(c, s) then x.inbox[1..]
                                    else x.inbox + Delivered(c, e, s)))
            && ph' == (if !Possible(c, e) then ph
                       else if e == Ping && s.Caller? then Asking(ph.pings + 1, false, None)
                       else if e == Arrive(s) then ph.(ahead := Some(|x.inbox|))
                       else if e == Hear(s) then Judged(s, ph.pings, Heard(w, c, s))
                       else ph)
  {
    hide Judged, Heard, Own, Emits, Enabled, Handshake.Step;
    if MoveOf(c, e).Some? {
      MoveFrame(c.pair, MoveOf(c, e).value);
    }
    assert Get(c.pair, s).inbox + [] == Get(c.pair, s).inbox;
  }

  /** The datagrams an event puts into the inbox of `s`. */
  function Delivered(c: Call, e: Event, s: Side): seq<StreamIO.Datagram> {
    if e.Shake? && Possible(c, e) && e.move.side == Other(s) then Emits(Get(c.pair, Other(s)), e.move) else []
  }

  lemma {:induction false} NotEntered(w: World, events: seq<Event>, s: Side)
    ensures Waiting(w, RunCall(w, events), s)
  {
    hide PhasesAfter, PairAfter, Delivered, Overhears;
    if events != [] {
      var k := |events| - 1;
      NotEntered(w, events[..k], s);
      EventFrame(w, RunCall(w, events[..k]), events[k], s);
    }
  }

  // ----- What is read before the handshake

  /** A client that has not entered its handshake can only find confirmations in its inbox: the
      other one has read nothing from it and does not stream. */
  lemma {:induction false} OnlyPunches(w: World, events: seq<Event>, s: Side)
    ensures var c := RunCall(w, events);
            !PhaseOf(c, s).Entered? ==>
              && !Streaming(Get(c.pair, Other(s))) && !Streaming(Get(c.pair, s))
              && !Get(c.pair, Other(s)).pc.Answer?
              && (forall d :: d in Get(c.pair, s).inbox ==> d == OkDatagram)
  {
    hide RunCall, Handshake.Run;
    PairIsRun(w, events);
    RunKeeps(w.web, Shakes(w, events));
    NotEntered(w, events, s);
    var c := RunCall(w, events);
    if !PhaseOf(c, s).Entered? {
      assert Get(c.pair, s).texts == [];
      assert Get(c.pair, Other(s)).streamed == [];
    }
  }

  /** A peer's datagram, read as an answer, ends the attempt. */
  lemma OverheardFails(s: Side, pings: nat)
    ensures Judged(s, pings, Decoded(OkDatagram)) == Failed
  {
    hide P2PClient.AfterText, Decoded, Reply.FromString, StringUtils.SplitFirst;
    OkIsShort();
    assert Reply.Message(Reply.R200) == OK;
    Reply.CodeOfMessage(Reply.R200);
    P2PClient.ReplyDecides(AskingState(s), OpOf(s), "", "", Some(OK));
  }

  lemma AnswerJudged(w: World, s: Side, pings: nat, early: bool)
    requires early ==> s.Caller?
    ensures Judged(s, pings, AnswerText(w, s, early))
            == if s.Caller? && pings > 11 then GaveUp
               else if early then Pinging(pings) else Entered
  {
    hide Reply.Append, Reply.Message, Reply.FromString, P2PClient.AfterText;
    var text := AnswerText(w, s, early);
    var payload := AddressFor(w, s) + " " + if w.web then "WEB" else "LOCAL";
    Signalling.TextRead(if early then CallControllers.Fixed(Reply.R203)
                        else CallControllers.Answer(Reply.R201, payload));
    P2PClient.ReplyDecides(AskingState(s), OpOf(s), "", "", Some(text));
  }

  // ----- One event

  /** A peer's datagram stands before the answer that the client needs, or did. */
  predicate Blocked(ph: Phase, inbox: seq<StreamIO.Datagram>) {
    || ph.Failed? || ph.GaveUp?
    || (ph.Pinging? && inbox != [])
    || (ph.Asking? && inbox != [] && (ph.early || ph.ahead != Some(0)))
  }

  /** None stands before it. */
  predicate Clear(ph: Phase, inbox: seq<StreamIO.Datagram>) {
    && !ph.Failed?
    && (ph.Pinging? ==> inbox == [])
    && (ph.Asking? ==> ph.ahead == Some(0) || (ph.ahead == None && inbox == []))
    && (ph.Asking? && ph.early ==> inbox == [])
  }

  /** The pings that each phase stands for; the first one sent after the ACCEPT is the last. */
  predicate Counted(w: World, s: Side, ph: Phase) {
    if s.Callee? then !ph.Pinging? && !ph.GaveUp? && (ph.Asking? ==> !ph.early)
    else
      match ph
      case Pinging(p) => p == w.sent
      case Asking(p, early, _) => p == if early then w.sent else w.sent + 1
      case Entered => w.sent <= 10
      case GaveUp => w.sent > 10
      case Failed => true
  }

  predicate OnlyOk(inbox: seq<StreamIO.Datagram>) { forall d :: d in inbox ==> d == OkDatagram }

  lemma HearKeeps(w: World, c: Call, s: Side)
    requires Possible(c, Hear(s)) && Counted(w, s, PhaseOf(c, s)) && OnlyOk(Get(c.pair, s).inbox)
    ensures var ph, inbox := PhaseOf(c, s), Get(c.pair, s).inbox;
            var ph' := Judged(s, ph.pings, Heard(w, c, s));
            var inbox' := if Overhears(c, s) then inbox[1..] else inbox;
            && Counted(w, s, ph')
            && (Blocked(ph, inbox) ==> Blocked(ph', inbox'))
            && (Clear(ph, inbox) ==> Clear(ph', inbox'))
  {
    var ph, inbox := PhaseOf(c, s), Get(c.pair, s).inbox;
    if Overhears(c, s) {
      assert inbox[0] in inbox;
      OverheardFails(s, ph.pings);
    } else {
      AnswerJudged(w, s, ph.pings, ph.early);
    }
    hide Judged, AnswerText, Decoded, OnlyOk;
  }

  lemma DeliveryBlocks(ph: Phase, inbox: seq<StreamIO.Datagram>, more: seq<StreamIO.Datagram>)
    ensures Blocked(ph, inbox) ==> Blocked(ph, inbox + more)
    ensures Clear(ph, inbox) && !(Expecting(ph) && more != []) ==> Clear(ph, inbox + more)
    ensures Expecting(ph) && more != [] ==> Blocked(ph, inbox + more)
  {
  }

  lemma AskKeeps(w: World, s: Side, ph: Phase, inbox: seq<StreamIO.Datagram>)
    requires Counted(w, s, ph)
    ensures ph.Asking? && ph.ahead == None ==>
              var ph' := ph.(ahead := Some(|inbox|));
              && Counted(w, s, ph') && (Blocked(ph, inbox) ==> Blocked(ph', inbox))
              && (Clear(ph, inbox) ==> Clear(ph', inbox))
    ensures ph.Pinging? ==>
              var ph' := Asking(ph.pings + 1, false, None);
              && Counted(w, s, ph') && (Blocked(ph, inbox) ==> Blocked(ph', inbox))
              && (Clear(ph, inbox) ==> Clear(ph', inbox))
  {
  }

  lemma EventKeeps(w: World, c: Call, e: Event, s: Side)
    requires Counted(w, s, PhaseOf(c, s))
    requires !PhaseOf(c, s).Entered? ==> OnlyOk(Get(c.pair, s).inbox)
    ensures var x, ph := Get(c.pair, s), PhaseOf(c, s);
            var x', ph' := Get(After(w, c, e).pair, s), PhaseOf(After(w, c, e), s);
            && Counted(w, s, ph')
            && (Blocked(ph, x.inbox) ==> Blocked(ph', x'.inbox))
            && (Clear(ph, x.inbox) && !Overtakes(c, e) ==> Clear(ph', x'.inbox))
            && (Overtakes(c, e) && s == Other(e.move.side) ==> Blocked(ph', x'.inbox))
  {
    EventFrame(w, c, e, s);
    var ph, inbox := PhaseOf(c, s), Get(c.pair, s).inbox;
    AskKeeps(w, s, ph, inbox);
    DeliveryBlocks(ph, inbox, Delivered(c, e, s));
    EntryIsClear(ph, inbox, Get(After(w, c, e).pair, s).inbox);
    assert inbox + [] == inbox;
    if e == Hear(s) && Possible(c, e) {
      HearKeeps(w, c, s);
    }
    hide After, Judged, Heard, Emits, Enabled, Counted, Blocked, Clear, OnlyOk, Streaming;
  }

  lemma EntryIsClear(ph: Phase, inbox: seq<StreamIO.Datagram>, inbox': seq<StreamIO.Datagram>)
    ensures ph.Entered? ==> !Blocked(ph, inbox) && Clear(ph, inbox') && !Expecting(ph)
  {
  }

  // ----- Every run

  predicate IsBlocked(c: Call, s: Side) { Blocked(PhaseOf(c, s), Get(c.pair, s).inbox) }

  predicate IsClear(c: Call, s: Side) { Clear(PhaseOf(c, s), Get(c.pair, s).inbox) }

  lemma {:induction false} CallKeeps(w: World, events: seq<Event>)
    ensures var c := RunCall(w, events);
            && Counted(w, Caller, c.caller) && Counted(w, Callee, c.callee)
            && (if Overtaken(w, events) then IsBlocked(c, Caller) || IsBlocked(c, Callee)
                else IsClear(c, Caller) && IsClear(c, Callee))
  {
    if events == [] {
      assert RunCall(w, events) == Start(w);
    } else {
      var k := |events| - 1;
      CallKeeps(w, events[..k]);
      var c := RunCall(w, events[..k]);
      OnlyPunches(w, events[..k], Caller);
      OnlyPunches(w, events[..k], Callee);
      hide After, Overtakes, Counted, Blocked, Clear, OnlyOk;
      AllOk(c, Caller);
      AllOk(c, Callee);
      EventKeeps(w, c, events[k], Caller);
      EventKeeps(w, c, events[k], Callee);
      OvertakerMoves(c, events[k]);
    }
  }

  lemma AllOk(c: Call, s: Side)
    ensures (forall d :: d in Get(c.pair, s).inbox ==> d == OkDatagram) ==> OnlyOk(Get(c.pair, s).inbox)
  {
  }

  lemma OvertakerMoves(c: Call, e: Event)
    ensures Overtakes(c, e) ==> e.Shake?
  {
  }

  /** When nothing arrives ahead of an answer, nothing is overheard. */
  lemma {:induction false} NothingOverheard(w: World, events: seq<Event>)
    requires !Overtaken(w, events)
    ensures Lossless(Shakes(w, events))
  {
    hide RunCall;
    if events != [] {
      var k := |events| - 1;
      NothingOverheard(w, events[..k]);
      CallKeeps(w, events[..k]);
      var c := RunCall(w, events[..k]);
      assert events[k].Hear? ==> !Overhears(c, events[k].side);
    }
  }

  /** Nothing is left to do but to stream. */
  ghost predicate Ended(c: Call) {
    forall e :: Possible(c, e) ==> e.Shake? && e.move.Stream?
  }

  /** A lossless call that has come to its end has connected both peers exactly when no datagram of
      a peer arrived ahead of the other's 201 and the caller had a useful PING left; otherwise one
      of the two has failed or given up. */
  lemma {:induction false} CallConnectsIff(w: World, events: seq<Event>)
    requires Ended(RunCall(w, events))
    ensures var c := RunCall(w, events);
            && (Streaming(c.pair.caller) && Streaming(c.pair.callee)
                <==> !Overtaken(w, events) && w.sent <= 10)
            && (Overtaken(w, events) ==> c.caller.Failed? || c.caller.GaveUp? || c.callee.Failed?)
  {
    hide RunCall, Overtaken, Streaming, Enabled, OnlyOk;
    var c := RunCall(w, events);
    CallKeeps(w, events);
    OnlyPunches(w, events, Caller);
    OnlyPunches(w, events, Callee);
    assert !Possible(c, Ping) && !Possible(c, Arrive(Caller)) && !Possible(c, Arrive(Callee));
    assert !Possible(c, Hear(Caller)) && !Possible(c, Hear(Callee));
    if !Overtaken(w, events) && w.sent <= 10 {
      assert c.caller.Entered? && c.callee.Entered?;
      BothEntered(w, events);
    }
  }

  lemma {:induction false} BothEntered(w: World, events: seq<Event>)
    requires Ended(RunCall(w, events)) && !Overtaken(w, events)
    requires RunCall(w, events).caller.Entered? && RunCall(w, events).callee.Entered?
    ensures Streaming(RunCall(w, events).pair.caller) && Streaming(RunCall(w, events).pair.callee)
  {
    hide RunCall, Overtaken, Streaming, Enabled, Work, Budget, Handshake.Run;
    var c := RunCall(w, events);
    PairIsRun(w, events);
    NothingOverheard(w, events);
    LosslessConnects(w.web, Shakes(w, events));
    forall m ensures !Enabled(c.pair, m) {
      assert !m.Stream? ==> !Possible(c, Shake(m));
      NoStreamEnabled(c.pair, m);
    }
  }

  lemma NoStreamEnabled(p: Pair, m: Move)
    ensures Enabled(p, m) ==> !m.Stream?
  {
  }

  // ----- Every run ends

  function PhaseRank(ph: Phase): nat {
    match ph
    case Pinging(_) => 3
    case Asking(_, early, ahead) => (if early then 4 else 1) + if ahead == None then 1 else 0
    case _ => 0
  }

  /** How many more events there can be, besides streaming. */
  function Rank(w: World, c: Call): int {
    PhaseRank(c.caller) + PhaseRank(c.callee) + Budget(w.web) - Work(c.pair)
  }

  lemma WorkAfter(c: Call, e: Event)
    ensures Work(PairAfter(c, e)) == Work(c.pair) + if e.Shake? && Possible(c, e) && !e.move.Stream? then 1 else 0
  {
    hide Decoded, Handshake.Step;
    if MoveOf(c, e).Some? {
      var m := MoveOf(c, e).value;
      MoveFrame(c.pair, m);
      NoStreamEnabled(c.pair, m);
      if e.Shake? && !m.Stream? {
        WorkGrows(c.pair, m);
      }
    }
  }

  lemma HearRanks(w: World, c: Call, s: Side)
    requires Possible(c, Hear(s)) && Counted(w, s, PhaseOf(c, s)) && OnlyOk(Get(c.pair, s).inbox)
    ensures PhaseRank(Judged(s, PhaseOf(c, s).pings, Heard(w, c, s))) < PhaseRank(PhaseOf(c, s))
  {
    var ph, inbox := PhaseOf(c, s), Get(c.pair, s).inbox;
    if Overhears(c, s) {
      assert inbox[0] in inbox;
      OverheardFails(s, ph.pings);
    } else {
      AnswerJudged(w, s, ph.pings, ph.early);
    }
    hide Judged, AnswerText, Decoded, OnlyOk;
  }

  lemma WorkWithinBudget(web: bool, p: Pair)
    requires Inv(web, p)
    ensures Work(p) <= Budget(web)
  {
    hide InboxInv;
  }

  /** Each event but streaming brings the end nearer. */
  lemma {:induction false} EventsEnd(w: World, events: seq<Event>, e: Event)
    ensures var c := RunCall(w, events);
            && Rank(w, c) >= 0
            && (Possible(c, e) && !(e.Shake? && e.move.Stream?) ==> Rank(w, After(w, c, e)) < Rank(w, c))
  {
    hide RunCall, Handshake.Run, Judged, Heard, Work, Budget, Inv, PairAfter, OnlyOk, Enabled, Counted;
    var c := RunCall(w, events);
    PairIsRun(w, events);
    RunKeeps(w.web, Shakes(w, events));
    WorkWithinBudget(w.web, c.pair);
    CallKeeps(w, events);
    WorkAfter(c, e);
    if e.Hear? && Possible(c, e) {
      OnlyPunches(w, events, e.side);
      AllOk(c, e.side);
      HearRanks(w, c, e.side);
    }
  }

  // ----- When a datagram can arrive ahead of an answer

  /** The 201 has arrived. */
  predicate Told(ph: Phase) {
    ph.Entered? || (ph.Asking? && !ph.early && ph.ahead.Some?)
  }

  /** The server answers the ACCEPT before the PING, and the answers arrive in that order. */
  predicate InOrder(w: World, events: seq<Event>) {
    var c := RunCall(w, events);
    && (Told(c.caller) ==> !(c.callee.Asking? && c.callee.ahead == None))
    && (events == [] || InOrder(w, events[..|events| - 1]))
  }

  /** The callee punches while the caller's 201 has not arrived. */
  predicate PunchesEarly(c: Call, e: Event) {
    e == Shake(Send(Callee)) && Possible(c, e) && c.pair.callee.pc.Punch? && Expecting(c.caller)
  }

  lemma {:induction false} OvertakerPunches(w: World, events: seq<Event>, e: Event)
    requires InOrder(w, events)
    ensures var c := RunCall(w, events);
            && (Overtakes(c, e) <==> PunchesEarly(c, e))
            && (PunchesEarly(c, e) ==> w.web)
  {
    hide RunCall, Handshake.Run, InboxInv, Decoded;
    var c := RunCall(w, events);
    PairIsRun(w, events);
    RunKeeps(w.web, Shakes(w, events));
    CallKeeps(w, events);
    OnlyPunches(w, events, Caller);
    NotEntered(w, events, Callee);
    assert Told(c.caller) ==> !(c.callee.Asking? && c.callee.ahead == None);
  }

  /** With the answers in order, a datagram arrives ahead of a 201 exactly when the callee punches
      before the caller's has arrived. */
  lemma {:induction false} OvertakenIffPunch(w: World, events: seq<Event>)
    requires InOrder(w, events)
    ensures Overtaken(w, events)
            <==> exists k :: 0 <= k < |events| && PunchesEarly(RunCall(w, events[..k]), events[k])
  {
    hide RunCall, PunchesEarly, Overtakes;
    if events != [] {
      var n := |events| - 1;
      OvertakenIffPunch(w, events[..n]);
      OvertakerPunches(w, events[..n], events[n]);
      assert forall k :: 0 <= k < n ==> events[..n][..k] == events[..k] && events[..n][k] == events[k];
    }
  }

  /** So with the answers in order it can happen exactly outside a local network: there a lossless
      call always connects, elsewhere the punch can be read as the answer to a PING. */
  lemma {:induction false} OvertakingIffWeb(w: World)
    ensures (exists events :: InOrder(w, events) && Overtaken(w, events)) <==> w.web
  {
    hide RunCall, Overtaken, InOrder;
    if w.web {
      var events := PunchFirst(w);
      assert InOrder(w, events) && Overtaken(w, events);
    } else {
      forall events | InOrder(w, events) ensures !Overtaken(w, events) {
        LocalNeverOvertaken(w, events);
      }
    }
  }

  lemma {:induction false} LocalNeverOvertaken(w: World, events: seq<Event>)
    requires !w.web && InOrder(w, events)
    ensures !Overtaken(w, events)
  {
    hide RunCall, Overtakes, PunchesEarly;
    if events != [] {
      LocalNeverOvertaken(w, events[..|events| - 1]);
      OvertakerPunches(w, events[..|events| - 1], events[|events| - 1]);
    }
  }

  lemma CallSnoc(w: World, events: seq<Event>, e: Event)
    ensures RunCall(w, events + [e]) == After(w, RunCall(w, events), e)
    ensures Overtaken(w, events + [e]) == (Overtaken(w, events) || Overtakes(RunCall(w, events), e))
    ensures InOrder(w, events) ==>
              InOrder(w, events + [e]) == (var c := After(w, RunCall(w, events), e);
                                           Told(c.caller) ==> !(c.callee.Asking? && c.callee.ahead == None))
  {
    assert (events + [e])[..|events|] == events;
  }

  lemma NoEvents(w: World)
    ensures RunCall(w, []) == Start(w) && !Overtaken(w, []) && InOrder(w, [])
  {
  }

  /** The callee's answer arrives and is read, and the callee punches. */
  lemma {:induction false} PunchFirst(w: World) returns (events: seq<Event>)
    requires w.web
    ensures InOrder(w, events) && Overtaken(w, events)
  {
    hide RunCall, Overtaken, InOrder, Judged, AnswerText;
    NoEvents(w);
    events := [Arrive(Callee)];
    CallSnoc(w, [], Arrive(Callee));
    assert [] + events == events;
    assert RunCall(w, events) == Start(w).(callee := Asking(0, false, Some(0)));
    AnswerJudged(w, Callee, 0, false);
    CallSnoc(w, events, Hear(Callee));
    events := events + [Hear(Callee)];
    assert RunCall(w, events) == Start(w).(callee := Entered);
    CallSnoc(w, events, Shake(Send(Callee)));
    events := events + [Shake(Send(Callee))];
  }

  /** The 201 brings a client into exactly the state its handshake starts from. */
  lemma AnswerEnters(w: World, s: Side)
    requires Signalling.Plain(w.calleeAddress) && Signalling.Plain(w.callerAddress)
    ensures P2PClient.AfterText(AskingState(s), OpOf(s), AnswerText(w, s, false))
            == Entry(w.web, s, if s.Caller? then w.calleeAddress else w.callerAddress)
  {
    hide StringUtils.SplitFirst, Reply.FromString, Reply.Append, P2PClient.WithAddress;
    var kind := if w.web then "WEB" else "LOCAL";
    var payload := AddressFor(w, s) + " " + kind;
    Signalling.TextRead(CallControllers.Answer(Reply.R201, payload));
    Signalling.PayloadRead(AskingState(s).(lastReply := Reply.R201), AddressFor(w, s), kind);
  }

  /** A caller whose CONNECT is answered 200 is in the state in which it asks; the callee asks as a new
      client. */
  lemma {:induction false} AskingStates(p: Decimal.Int32)
    ensures P2PClient.AfterText(P2PClient.Initial(), P2PClient.ConnectPeer(p), "200 OK") == AskingState(Caller)
    ensures AskingState(Callee) == P2PClient.Initial()
  {
    hide StringUtils.SplitFirst, Reply.FromString;
    assert Reply.Message(Reply.R200) == "200 OK";
    Reply.CodeOfMessage(Reply.R200);
  }

  /** How a call begins: a caller that waits hears its early answer and pings again, if it may; one that
      does not wait pings. */
  lemma {:induction false} FirstEvents(w: World)
    ensures w.waiting ==>
              RunCall(w, [Arrive(Caller), Hear(Caller)]).caller == if w.sent > 11 then GaveUp else Pinging(w.sent)
    ensures !w.waiting ==> RunCall(w, [Ping]).caller == Asking(w.sent + 1, false, None)
  {
    hide Judged, AnswerText, RunCall;
    NoEvents(w);
    CallSnoc(w, [], Ping);
    CallSnoc(w, [], Arrive(Caller));
    CallSnoc(w, [Arrive(Caller)], Hear(Caller));
    assert [] + [Ping] == [Ping] && [] + [Arrive(Caller)] == [Arrive(Caller)];
    assert [Arrive(Caller)] + [Hear(Caller)] == [Arrive(Caller), Hear(Caller)];
    AnswerJudged(w, Caller, w.sent, true);
  }
}

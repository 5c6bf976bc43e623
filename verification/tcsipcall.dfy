/** One call: flag bits driven by the user, by ICE and by SIP. */
module TcSipCall {

  const STOP: bv8 := 0
  const IN_RING: bv8 := 1
  const OUT_RING: bv8 := 2
  const RING: bv8 := IN_RING | OUT_RING
  const FLOW: bv8 := 4
  const MEDIA: bv8 := 8
  const EST: bv8 := 16
  const ERR: bv8 := 32
  const ICE: bv8 := 64
  const ALIVE: bv8 := EST | RING
  const FLOW_MEDIA: bv8 := FLOW | MEDIA
  const ERR_EST: bv8 := ERR | EST

  datatype Dir = CallIn | CallOut

  datatype End = Running | CendOk | CendCancel | CendHang

  // What a call does that others see. The last is the record `tcsip_call_history` adds.
  datatype Out = Invite | Answer200 | Reject486 | Changed | History(ok: bool, dir: Dir)

  // `ended` calls have been unlinked and released.
  datatype Call = Call(cdir: Dir, cstate: bv8, reason: End, sess: bool, ended: bool, log: seq<Out>)

  function Drop(x: bv8, bits: bv8): bv8 {
    x & (x ^ bits)
  }

  predicate Test(x: bv8, bits: bv8) {
    x & bits == bits
  }

  function Set(x: bv8, bits: bv8): bv8 {
    x | bits
  }

  predicate Any(x: bv8, bits: bv8) {
    x & bits != 0
  }

  // ---------- The handlers on values ----------

  // The call handler, `tcsip_call_changed`.
  function Notified(c: Call): seq<Out> {
    [Changed] + if Any(c.cstate, ALIVE) then [] else [History(c.reason == CendOk, c.cdir)]
  }

  function Notify(c: Call): Call {
    c.(log := c.log + Notified(c))
  }

  function Outgoing(mediaErr: bool): Call {
    Call(CallOut, if mediaErr then Set(STOP, ERR) else STOP, Running, false, false, [])
  }

  function Incoming(mediaErr: bool, acceptErr: bool): Call {
    var s := if mediaErr then Set(IN_RING, ERR) else IN_RING;
    Call(CallIn, if acceptErr then Set(s, ERR) else s, Running, !acceptErr, false, [])
  }

  function Activate(c: Call, startErr: bool): Call {
    if Test(c.cstate, FLOW_MEDIA) then c
    else
      var s := Set(Drop(c.cstate, RING), EST);
      Notify(c.(cstate := if startErr then Set(s, ERR) else Set(s, FLOW_MEDIA)))
  }

  function Hangup(c: Call): Call {
    var r := if c.reason != Running then c.reason else if Test(c.cstate, EST) then CendOk else CendHang;
    Notify(c.(sess := false, reason := r, cstate := Drop(Drop(c.cstate, ALIVE), EST))).(ended := true)
  }

  function Accept(c: Call, offerErr: bool): Call {
    if Any(c.cstate, ERR_EST) || c.cdir != CallIn then c
    else if !Any(c.cstate, ICE) || offerErr then c.(cstate := Drop(c.cstate, RING))
    else c.(cstate := Set(Drop(c.cstate, RING), EST), log := c.log + [Answer200])
  }

  // A user's reject or bye.
  function Bye(c: Call): Call {
    var c1 := if Test(c.cstate, IN_RING) then
                c.(log := c.log + [Reject486], cstate := Drop(c.cstate, IN_RING), reason := CendHang)
              else c;
    var c2 := if Test(c1.cstate, EST) then c1.(cstate := Drop(c1.cstate, EST), reason := CendOk) else c1;
    var c3 := if Test(c2.cstate, OUT_RING) then c2.(cstate := Drop(c2.cstate, EST), reason := CendCancel) else c2;
    Hangup(c3)
  }

  function Send(c: Call, connectErr: bool): Call {
    if connectErr then c.(cstate := Set(c.cstate, ERR))
    else c.(cstate := Set(c.cstate, OUT_RING), sess := true, log := c.log + [Invite])
  }

  function IceOk(c: Call, connectErr: bool, offerErr: bool): Call {
    var d := c.(cstate := Set(c.cstate, ICE));
    match c.cdir
    case CallOut => Send(d, connectErr)
    case CallIn => if !Any(d.cstate, IN_RING) then Accept(d, offerErr) else d
  }

  lemma EstIsOneBit(x: bv8)
    ensures Test(x, EST) <==> Any(x, EST)
  {
  }

  // ---------- The object ----------

  class SipCall {
    var cdir: Dir
    var cstate: bv8
    var reason: End
    var sess: bool
    var ended: bool
    var log: seq<Out>

    ghost function State(): Call
      reads this
    {
      Call(cdir, cstate, reason, sess, ended, log)
    }

    /** `tcsipcall_out` */
    constructor Out(mediaErr: bool)
      ensures State() == Outgoing(mediaErr)
    {
      cdir, cstate, reason, sess, ended, log := CallOut, STOP, Running, false, false, [];
      new;
      if mediaErr {
        cstate := Set(cstate, ERR);
      }
    }

    /** `tcsipcall_incomfing` and `tcsipcall_accept` */
    constructor In(mediaErr: bool, acceptErr: bool)
      ensures State() == Incoming(mediaErr, acceptErr)
    {
      cdir, cstate, reason, sess, ended, log := CallIn, IN_RING, Running, !acceptErr, false, [];
      new;
      if mediaErr {
        cstate := Set(cstate, ERR);
      }
      if acceptErr {
        cstate := Set(cstate, ERR);
      }
    }

    method Handler()
      modifies this`log
      ensures State() == Notify(old(State()))
    {
      log := log + [Changed];
      if Any(cstate, ALIVE) {
        return;
      }
      log := log + [History(reason == CendOk, cdir)];
    }

    method TcActivate(startErr: bool)
      modifies this
      ensures State() == Activate(old(State()), startErr)
    {
      hide Drop, Test, Set, Notify;
      if Test(cstate, FLOW_MEDIA) {
        return;
      }
      cstate := Drop(cstate, RING);
      cstate := Set(cstate, EST);
      if startErr {
        cstate := Set(cstate, ERR);
      } else {
        cstate := Set(cstate, FLOW_MEDIA);
      }
      Handler();
    }

    method TcHangup()
      modifies this
      ensures State() == Hangup(old(State()))
    {
      hide Drop, Test, Any;
      EstIsOneBit(cstate);
      if sess {
        sess := false;
      }
      if reason == Running && Test(cstate, EST) {
        reason := CendOk;
      }
      if reason == Running && !Any(cstate, EST) {
        reason := CendHang;
      }
      cstate := Drop(cstate, ALIVE);
      cstate := Drop(cstate, EST);
      Handler();
      ended := true;
    }

    method ControlAccept(offerErr: bool)
      modifies this
      ensures State() == Accept(old(State()), offerErr)
    {
      if Any(cstate, ERR_EST) {
        return;
      }
      if cdir != CallIn {
        return;
      }
      if !Any(cstate, ICE) {
        cstate := Drop(cstate, RING);
        return;
      }
      if offerErr {
        cstate := Drop(cstate, RING);
        return;
      }
      log := log + [Answer200];
      cstate := Drop(cstate, RING);
      cstate := Set(cstate, EST);
    }

    method ControlBye()
      modifies this
      ensures State() == Bye(old(State()))
    {
      hide Drop, Test, Hangup;
      if Test(cstate, IN_RING) {
        log := log + [Reject486];
        cstate := Drop(cstate, IN_RING);
        reason := CendHang;
      }
      if Test(cstate, EST) {
        cstate := Drop(cstate, EST);
        reason := CendOk;
      }
      if Test(cstate, OUT_RING) {
        cstate := Drop(cstate, EST);
        reason := CendCancel;
      }
      TcHangup();
    }

    method TcSend(connectErr: bool)
      modifies this
      ensures State() == Send(old(State()), connectErr)
    {
      if connectErr {
        cstate := Set(cstate, ERR);
      } else {
        log := log + [Invite];
        sess := true;
        cstate := Set(cstate, OUT_RING);
      }
    }

    /** `media_event` with `MEDIA_ICE_OK` */
    method MediaIceOk(connectErr: bool, offerErr: bool)
      modifies this
      ensures State() == IceOk(old(State()), connectErr, offerErr)
    {
      cstate := Set(cstate, ICE);
      match cdir {
        case CallOut =>
          TcSend(connectErr);
        case CallIn =>
          if !Any(cstate, IN_RING) {
            ControlAccept(offerErr);
          }
      }
    }
  }

  // ---------- Runs ----------

  datatype Event =
    | UserAccept(offerErr: bool)
    | UserBye                                   // reject or bye
    | Ice(connectErr: bool, offerErr: bool)
    | Sip(startErr: bool)                       // early media, or the session is established
    | Closed                                    // by the peer, or by the keep-alive timer

  function Step(c: Call, e: Event): Call {
    match e
    case UserAccept(offerErr) => Accept(c, offerErr)
    case UserBye => Bye(c)
    case Ice(connectErr, offerErr) => IceOk(c, connectErr, offerErr)
    case Sip(startErr) => Activate(c, startErr)
    case Closed => Hangup(c)
  }

  function Count(log: seq<Out>, o: Out): nat {
    multiset(log)[o]
  }

  function Records(log: seq<Out>): nat {
    Count(log, History(true, CallIn)) + Count(log, History(true, CallOut)) +
    Count(log, History(false, CallIn)) + Count(log, History(false, CallOut))
  }

  // ICE completes once, SIP answers an outgoing call only after its INVITE, and nothing reaches an ended call.
  predicate Legal(c: Call, e: Event) {
    !c.ended &&
    match e
    case Ice(_, _) => !Any(c.cstate, ICE)
    case Sip(_) => c.cdir == CallIn || Count(c.log, Invite) > 0
    case _ => true
  }

  predicate LegalRun(c: Call, events: seq<Event>)
    decreases |events|
  {
    events == [] || (Legal(c, events[0]) && LegalRun(Step(c, events[0]), events[1..]))
  }

  function After(c: Call, events: seq<Event>): Call
    decreases |events|
  {
    if events == [] then c else After(Step(c, events[0]), events[1..])
  }

  // An incoming call is answered at most once, and then established; an outgoing call sends at most one INVITE.
  predicate Tallied(c: Call, est: bool) {
    && Count(c.log, Answer200) <= 1 && (Count(c.log, Answer200) > 0 ==> est && c.cdir == CallIn)
    && Count(c.log, Invite) <= 1 && (Count(c.log, Invite) > 0 ==> c.cdir == CallOut)
  }

  // A call that is over: its one record and its reason agree with what it was.
  predicate Over(c: Call, est: bool) {
    && Records(c.log) == 1 && Count(c.log, History(est, c.cdir)) == 1
    && !Any(c.cstate, ALIVE) && !c.sess
    && c.reason != Running && (c.reason == CendOk <==> est)
    && (c.reason == CendCancel ==> c.cdir == CallOut && Count(c.log, Invite) > 0)
  }

  // `est` says whether the call was established at some point: by SIP, or by a 200 of its own.
  ghost predicate Good(c: Call, est: bool) {
    && !(Any(c.cstate, RING) && Any(c.cstate, EST))
    && Tallied(c, est)
    && (!c.ended ==>
          && c.reason == Running && Records(c.log) == 0
          && (est <==> Any(c.cstate, EST)) && (Test(c.cstate, FLOW_MEDIA) ==> est)
          && (Any(c.cstate, OUT_RING) ==> Count(c.log, Invite) > 0)
          && (c.cdir == CallOut ==>
                && !Any(c.cstate, IN_RING)
                && (!Any(c.cstate, ICE) ==> Count(c.log, Invite) == 0 && !Any(c.cstate, RING) && !est)))
    && (c.ended ==> Over(c, est))
  }

  predicate IsEst(c: Call) {
    Any(c.cstate, EST)
  }

  predicate Answered(c: Call) {
    Count(c.log, Answer200) > 0
  }

  lemma CountAppend(a: seq<Out>, b: seq<Out>, o: Out)
    ensures Count(a + b, o) == Count(a, o) + Count(b, o)
  {
  }

  lemma HungUpState(x: bv8)
    ensures var y := Drop(Drop(x, ALIVE), EST);
            !Any(y, ALIVE) && !Any(y, RING) && !Any(y, EST)
  {
  }

  lemma RecordsOfOne(log: seq<Out>, ok: bool, dir: Dir)
    requires Records(log) == 0
    ensures var l := log + [Changed, History(ok, dir)];
            && Records(l) == 1 && Count(l, History(ok, dir)) == 1
            && Count(l, Answer200) == Count(log, Answer200) && Count(l, Invite) == Count(log, Invite)
  {
    var b := [Changed, History(ok, dir)];
    CountAppend(log, b, History(true, CallIn));
    CountAppend(log, b, History(true, CallOut));
    CountAppend(log, b, History(false, CallIn));
    CountAppend(log, b, History(false, CallOut));
    CountAppend(log, b, Answer200);
    CountAppend(log, b, Invite);
    assert multiset(b) == multiset{Changed, History(ok, dir)};
  }

  lemma HangupRecords(c: Call, est: bool)
    requires Records(c.log) == 0 && Tallied(c, est)
    requires est <==> (if c.reason == Running then IsEst(c) else c.reason == CendOk)
    requires c.reason == CendCancel ==> c.cdir == CallOut && Count(c.log, Invite) > 0
    ensures Good(Hangup(c), est) && Hangup(c).ended && !Any(Hangup(c).cstate, ALIVE)
  {
    hide Drop, Count, Records;
    HungUpState(c.cstate);
    EstIsOneBit(c.cstate);
    RecordsOfOne(c.log, est, c.cdir);
    assert Hangup(c).log == c.log + [Changed, History(est, c.cdir)];
  }

  lemma ByeKeeps(c: Call, est: bool)
    requires Good(c, est) && !c.ended
    ensures Good(Bye(c), est) && Bye(c).ended && !Any(Bye(c).cstate, ALIVE)
  {
    hide Hangup, Records, Count;
    ByeFlags(c.cstate);
    CountOne(c.log, Reject486);
    var c1 := if Test(c.cstate, IN_RING) then
                c.(log := c.log + [Reject486], cstate := Drop(c.cstate, IN_RING), reason := CendHang)
              else c;
    var c2 := if Test(c1.cstate, EST) then c1.(cstate := Drop(c1.cstate, EST), reason := CendOk) else c1;
    var c3 := if Test(c2.cstate, OUT_RING) then c2.(cstate := Drop(c2.cstate, EST), reason := CendCancel) else c2;
    HangupRecords(c3, est);
  }

  lemma ByeFlags(x: bv8)
    ensures Test(x, IN_RING) ==> Any(x, RING) && (Any(Drop(x, IN_RING), EST) <==> Any(x, EST))
    ensures Test(x, OUT_RING) <==> Any(x, OUT_RING)
    ensures Any(x, OUT_RING) ==> Any(x, RING)
    ensures Test(x, EST) <==> Any(x, EST)
    ensures Any(x, EST) ==> !Any(Drop(x, EST), EST) && (Test(Drop(x, EST), OUT_RING) <==> Test(x, OUT_RING))
    ensures Test(Drop(x, IN_RING), OUT_RING) <==> Test(x, OUT_RING)
  {
  }

  lemma CountOne(log: seq<Out>, o: Out)
    requires !o.History?
    ensures var l := log + [o];
            && Records(l) == Records(log)
            && Count(l, Answer200) == Count(log, Answer200) + (if o == Answer200 then 1 else 0)
            && Count(l, Invite) == Count(log, Invite) + (if o == Invite then 1 else 0)
  {
    var b := [o];
    CountAppend(log, b, History(true, CallIn));
    CountAppend(log, b, History(true, CallOut));
    CountAppend(log, b, History(false, CallIn));
    CountAppend(log, b, History(false, CallOut));
    CountAppend(log, b, Answer200);
    CountAppend(log, b, Invite);
  }

  lemma AnsweredState(x: bv8)
    ensures var y := Set(Drop(x, RING), EST);
            && Any(y, EST) && !Any(y, RING) && !Any(y, IN_RING) && !Any(y, OUT_RING)
            && (Any(y, ICE) <==> Any(x, ICE)) && Any(y, ALIVE)
    ensures var y := Drop(x, RING);
            && !Any(y, RING) && !Any(y, IN_RING) && !Any(y, OUT_RING)
            && (Any(y, EST) <==> Any(x, EST)) && (Any(y, ICE) <==> Any(x, ICE))
            && (Test(y, FLOW_MEDIA) <==> Test(x, FLOW_MEDIA))
    ensures Any(x, ERR_EST) <==> Any(x, ERR) || Any(x, EST)
  {
  }

  lemma AcceptKeeps(c: Call, est: bool, offerErr: bool)
    requires Good(c, est) && !c.ended
    ensures var d := Accept(c, offerErr); Good(d, est || Answered(d)) && !d.ended
  {
    hide Drop, Set, Any, Test, Count, Records;
    AnsweredState(c.cstate);
    CountOne(c.log, Answer200);
  }

  lemma ActivatedState(x: bv8)
    ensures var y := Set(Drop(x, RING), EST);
            var z, w := Set(y, ERR), Set(y, FLOW_MEDIA);
            && Any(z, EST) && !Any(z, RING) && !Any(z, IN_RING) && !Any(z, OUT_RING)
            && (Any(z, ICE) <==> Any(x, ICE)) && Any(z, ALIVE)
            && Any(w, EST) && !Any(w, RING) && !Any(w, IN_RING) && !Any(w, OUT_RING)
            && (Any(w, ICE) <==> Any(x, ICE)) && Any(w, ALIVE)
  {
  }

  lemma ActivateKeeps(c: Call, est: bool, startErr: bool)
    requires Good(c, est) && Legal(c, Sip(startErr))
    ensures Good(Activate(c, startErr), true) && !Activate(c, startErr).ended
  {
    hide Drop, Set, Any, Test, Count, Records;
    ActivatedState(c.cstate);
    CountOne(c.log, Changed);
    assert [Changed] + [] == [Changed];
  }

  lemma IceState(x: bv8)
    ensures var y := Set(x, ICE);
            && Any(y, ICE) && (Any(y, RING) <==> Any(x, RING)) && (Any(y, IN_RING) <==> Any(x, IN_RING))
            && (Any(y, EST) <==> Any(x, EST)) && (Any(y, OUT_RING) <==> Any(x, OUT_RING))
            && (Test(y, FLOW_MEDIA) <==> Test(x, FLOW_MEDIA))
    ensures var y := Set(x, ERR);
            && (Any(y, OUT_RING) <==> Any(x, OUT_RING)) && (Test(y, FLOW_MEDIA) <==> Test(x, FLOW_MEDIA))
            && (Any(y, ICE) <==> Any(x, ICE)) && (Any(y, RING) <==> Any(x, RING))
            && (Any(y, IN_RING) <==> Any(x, IN_RING)) && (Any(y, EST) <==> Any(x, EST))
    ensures var y := Set(x, OUT_RING);
            && (Any(y, ICE) <==> Any(x, ICE)) && (Any(y, IN_RING) <==> Any(x, IN_RING))
            && (Any(y, EST) <==> Any(x, EST)) && Any(y, OUT_RING)
            && (Test(y, FLOW_MEDIA) <==> Test(x, FLOW_MEDIA))
  {
  }

  lemma IceKeeps(c: Call, est: bool, connectErr: bool, offerErr: bool)
    requires Good(c, est) && Legal(c, Ice(connectErr, offerErr))
    ensures var d := IceOk(c, connectErr, offerErr); Good(d, est || Answered(d)) && !d.ended
  {
    hide Drop, Set, Any, Test, Count, Records;
    var d := c.(cstate := Set(c.cstate, ICE));
    IceState(c.cstate);
    IceState(d.cstate);
    CountOne(c.log, Invite);
    if c.cdir == CallIn {
      AcceptKeeps(d, est, offerErr);
    }
  }

  lemma StepKeeps(c: Call, est: bool, e: Event)
    requires Good(c, est) && Legal(c, e)
    ensures var d := Step(c, e); Good(d, est || e.Sip? || Answered(d)) && (d.ended ==> e.UserBye? || e.Closed?)
  {
    hide Drop, Set, Any, Count, Records, Accept, IceOk, Activate, Bye, Hangup, Good;
    match e
    case UserAccept(offerErr) => AcceptKeeps(c, est, offerErr);
    case UserBye =>
      ByeKeeps(c, est);
      AnsweredIsEst(c, est);
      AnsweredIsEst(Bye(c), est);
    case Ice(connectErr, offerErr) => IceKeeps(c, est, connectErr, offerErr);
    case Sip(startErr) => ActivateKeeps(c, est, startErr);
    case Closed =>
      GoodIsRunning(c, est);
      HangupRecords(c, est);
      AnsweredIsEst(Hangup(c), est);
  }

  lemma AnsweredIsEst(c: Call, est: bool)
    requires Good(c, est)
    ensures Answered(c) ==> est
  {
  }

  lemma GoodIsRunning(c: Call, est: bool)
    requires Good(c, est) && !c.ended
    ensures Records(c.log) == 0 && Tallied(c, est)
    ensures c.reason == Running && (est <==> IsEst(c))
  {
  }

  // Over a run, SIP reported early media or an established session, or the call was answered with a 200.
  predicate Established(c: Call, events: seq<Event>) {
    (exists k :: 0 <= k < |events| && events[k].Sip?) || Answered(After(c, events))
  }

  /**
   Over every run of a call: it never rings and is established at once, it is answered at most once and sends
   at most one INVITE, and it leaves exactly one history record, made when it ends, which is marked OK exactly
   if SIP or its own 200 established it. It ends as cancelled only if it was calling out and nobody had answered.
   */
  lemma {:induction false} CallIsSafe(c: Call, est: bool, events: seq<Event>)
    requires Good(c, est) && LegalRun(c, events)
    ensures var d, e := After(c, events), est || Established(c, events);
            && Good(d, e)
            && !(Any(d.cstate, RING) && Any(d.cstate, EST))
            && (!d.ended ==> (e <==> Any(d.cstate, EST)))
            && Tallied(d, e)
            && Records(d.log) == (if d.ended then 1 else 0)
            && (d.ended ==> Over(d, e))
    decreases |events|
  {
    hide Drop, Set, Any, Test, Count, Records, Step, Legal;
    if events == [] {
      AnsweredIsEst(c, est);
    } else {
      var d, rest := Step(c, events[0]), events[1..];
      StepKeeps(c, est, events[0]);
      CallIsSafe(d, est || events[0].Sip? || Answered(d), rest);
      AnswersStay(d, rest);
      assert After(c, events) == After(d, rest);
      SipInRun(events);
    }
  }

  lemma SipInRun(events: seq<Event>)
    requires events != []
    ensures (exists k :: 0 <= k < |events| && events[k].Sip?) <==>
            events[0].Sip? || exists k :: 0 <= k < |events[1..]| && events[1..][k].Sip?
  {
    if k :| 0 < k < |events| && events[k].Sip? {
      assert events[1..][k - 1].Sip?;
    }
    if k :| 0 <= k < |events[1..]| && events[1..][k].Sip? {
      assert events[k + 1].Sip?;
    }
  }

  // The log only grows.
  lemma StepLogs(c: Call, e: Event)
    ensures c.log <= Step(c, e).log
  {
    hide Drop, Set, Any, Test;
  }

  lemma {:induction false} AnswersStay(c: Call, events: seq<Event>)
    ensures Answered(c) ==> Answered(After(c, events))
    decreases |events|
  {
    hide Step, Count;
    if events != [] {
      var d := Step(c, events[0]);
      StepLogs(c, events[0]);
      CountAppend(c.log, d.log[|c.log|..], Answer200);
      assert d.log == c.log + d.log[|c.log|..];
      AnswersStay(d, events[1..]);
    }
  }

  // ---------- What each handler does to be seen ----------

  /** A call without flow and media is established by SIP, with media if that starts and an error if not. */
  lemma ActivateEstablishes(c: Call, startErr: bool)
    ensures Test(c.cstate, FLOW_MEDIA) ==> Activate(c, startErr) == c
    ensures !Test(c.cstate, FLOW_MEDIA) ==>
              var d := Activate(c, startErr);
              && Any(d.cstate, EST) && !Any(d.cstate, RING) && d.log == c.log + [Changed]
              && (if startErr then Any(d.cstate, ERR)
                  else Any(d.cstate, FLOW) && Any(d.cstate, MEDIA) && (Any(d.cstate, ERR) <==> Any(c.cstate, ERR)))
              && (Any(d.cstate, ICE) <==> Any(c.cstate, ICE))
              && d.reason == c.reason && d.sess == c.sess && d.ended == c.ended
  {
    assert [Changed] + [] == [Changed];
  }

  /** An accept answers with a 200 exactly an incoming call with ICE done and no error, whose offer succeeds. */
  lemma AcceptAnswers(c: Call, offerErr: bool)
    ensures var d, open := Accept(c, offerErr), c.cdir == CallIn && !Any(c.cstate, ERR) && !Any(c.cstate, EST);
            && (!open ==> d == c)
            && (open ==> !Any(d.cstate, RING) && (Any(d.cstate, ICE) <==> Any(c.cstate, ICE)) && !Any(d.cstate, ERR))
            && d.log == c.log + (if open && Any(c.cstate, ICE) && !offerErr then [Answer200] else [])
            && (Any(d.cstate, EST) <==> Any(c.cstate, EST) || (open && Any(c.cstate, ICE) && !offerErr))
            && d.sess == c.sess && d.reason == c.reason && d.ended == c.ended
  {
  }

  /** Sending an outgoing call makes it ring with an INVITE, or marks it as failed. */
  lemma SendInvites(c: Call, connectErr: bool)
    ensures var d := Send(c, connectErr);
            if connectErr then d.log == c.log && Any(d.cstate, ERR) && d.sess == c.sess
            else d.log == c.log + [Invite] && Any(d.cstate, OUT_RING) && d.sess
  {
  }

  /** ICE done: an outgoing call is sent, an incoming one that still rings waits, and an accepted one is answered. */
  lemma IceGoesOn(c: Call, connectErr: bool, offerErr: bool)
    ensures var d := IceOk(c, connectErr, offerErr);
            && Any(d.cstate, ICE)
            && (c.cdir == CallOut ==> d.log == c.log + if connectErr then [] else [Invite])
            && (c.cdir == CallOut && !connectErr ==> Any(d.cstate, OUT_RING) && d.sess)
            && (c.cdir == CallIn && Any(c.cstate, IN_RING) ==> d.log == c.log && Any(d.cstate, IN_RING))
            && (c.cdir == CallIn && !Any(c.cstate, IN_RING) && !Any(c.cstate, ERR_EST) && !offerErr ==>
                  d.log == c.log + [Answer200] && Any(d.cstate, EST))
  {
  }

  /** The user's bye: a ringing call is rejected with a 486, and the reason and the record say how the call ended. */
  lemma ByeEnds(c: Call, est: bool)
    requires Good(c, est) && !c.ended
    ensures var d := Bye(c);
            && d.ended && !d.sess
            && d.reason == (if est then CendOk else if Any(c.cstate, OUT_RING) then CendCancel else CendHang)
            && d.log == c.log + (if Any(c.cstate, IN_RING) then [Reject486] else []) + [Changed, History(est, c.cdir)]
  {
    hide Count, Records;
    ByeFlags(c.cstate);
    HungUpState(c.cstate);
  }

  /** The other end, or the timer, hangs up. */
  lemma CloseEnds(c: Call, est: bool)
    requires Good(c, est) && !c.ended
    ensures var d := Hangup(c);
            && d.ended && !d.sess && d.reason == (if est then CendOk else CendHang)
            && d.log == c.log + [Changed, History(est, c.cdir)]
  {
    hide Count, Records;
    HungUpState(c.cstate);
  }

  /** A new call rings if it came in, has a session if that was set up, and an error for what was not. */
  lemma NewCallsStart(mediaErr: bool, acceptErr: bool)
    ensures var c := Outgoing(mediaErr);
            c.cdir == CallOut && !Any(c.cstate, ALIVE) && (Any(c.cstate, ERR) <==> mediaErr) && c.log == [] && !c.sess
    ensures var c := Incoming(mediaErr, acceptErr);
            && c.cdir == CallIn && Any(c.cstate, IN_RING) && !Any(c.cstate, OUT_RING) && !Any(c.cstate, EST)
            && (Any(c.cstate, ERR) <==> mediaErr || acceptErr) && c.sess == !acceptErr && c.log == []
            && !Any(c.cstate, ICE)
  {
  }

  lemma NewCallsAreGood(mediaErr: bool, acceptErr: bool)
    ensures Good(Outgoing(mediaErr), false) && Good(Incoming(mediaErr, acceptErr), false)
  {
  }

  // ---------- Accepting before or after ICE ----------

  lemma IceAndRingCommute(x: bv8)
    ensures Set(Drop(x, RING), ICE) == Drop(Set(x, ICE), RING)
    ensures Set(Set(Drop(x, RING), EST), ICE) == Set(Drop(Set(x, ICE), RING), EST)
    ensures Drop(Drop(x, RING), RING) == Drop(x, RING)
    ensures !Any(Drop(x, RING), IN_RING) && Any(Set(x, ICE), ICE)
    ensures Any(Set(x, ICE), ERR_EST) <==> Any(x, ERR_EST)
    ensures Any(Drop(x, RING), ERR_EST) <==> Any(x, ERR_EST)
    ensures Any(Set(x, ICE), IN_RING) <==> Any(x, IN_RING)
    ensures Any(Set(Drop(x, RING), EST), ERR_EST) && !Any(Set(Drop(x, RING), EST), IN_RING)
    ensures Any(Drop(x, RING), ICE) <==> Any(x, ICE)
    ensures !Any(x, RING) ==> Drop(x, RING) == x
  {
  }

  /** For an incoming call, the user's accept and the end of ICE lead to one state in either order. */
  lemma AcceptAndIceCommute(c: Call, connectErr: bool, offerErr: bool)
    requires c.cdir == CallIn && !Any(c.cstate, ICE)
    ensures IceOk(Accept(c, offerErr), connectErr, offerErr) == Accept(IceOk(c, connectErr, offerErr), offerErr)
  {
    hide Drop, Set, Any;
    IceAndRingCommute(c.cstate);
    IceAndRingCommute(Drop(c.cstate, RING));
    IceAndRingCommute(Set(c.cstate, ICE));
    IceAndRingCommute(Drop(Set(c.cstate, ICE), RING));
  }

  /** A failed offer stops the ringing but does not mark the call as failed: a later accept can still answer it. */
  lemma FailedOfferCanBeRetried(c: Call)
    requires c.cdir == CallIn && Any(c.cstate, ICE) && !Any(c.cstate, ERR_EST)
    ensures var d := Accept(c, true);
            && !Any(d.cstate, ERR) && d.log == c.log
            && Accept(d, false) == Accept(c, false) && IsEst(Accept(d, false))
  {
    hide Drop, Set, Any;
    IceAndRingCommute(c.cstate);
    AnsweredState(c.cstate);
    AnsweredState(Drop(c.cstate, RING));
  }
}

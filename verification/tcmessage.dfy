/** Outgoing messages: each is stored as pending, sent, and stored as delivered when a 200 comes back. */
module TcMessage {
  import opened Text
  import opened Codec
  import opened Store

  const SYNC: int := 1
  const PENDING: int := 3

  // `inflight` are the requests the SIP stack has not finished, oldest first.
  datatype Outbox = Outbox(rows: seq<Row>, flush: int, inflight: seq<Msg>)

  function MessageIdx(sec: int, usec: int, from: CString, to: CString): (s: CString)
    ensures s != ""
  {
    Print(sec) + "." + Pad6(Print(usec)) + "@" + from + "->" + to
  }

  function Idx(user: CString, m: Msg): (s: CString)
    ensures s != ""
  {
    MessageIdx(m.sec, m.usec, user, m.to)
  }

  // ---------- The operations on values ----------

  function WriteDb(rows: seq<Row>, glob: string, key: string, idx: CString, m: Msg, state: int): seq<Row> {
    AddState(rows, glob, key, idx, MsgBlob(m, idx), state)
  }

  // `ok` says whether the SIP stack takes the request.
  function Submit(o: Outbox, user: CString, glob: string, key: string, m: Msg, ok: bool): Outbox {
    o.(inflight := if ok then o.inflight + [m]
        else o.inflight, rows := WriteDb(o.rows, glob, key, Idx(user, m), m, PENDING))
  }

  function SendPending(o: Outbox, bulk: seq<Msg>, ok: bool): Outbox {
    o.(inflight := if ok then o.inflight + bulk else o.inflight, flush := o.flush + |bulk|)
  }

  function Flush(o: Outbox, glob: string, ok: bool): Outbox {
    match Fetch(o.rows, glob, PENDING, None, true)
    case None => o.(flush := 0)
    case Some(r) => SendPending(o.(flush := 0), MsgsParsed(r.blob), ok)
  }

  datatype Reply = Reply(err: int, scode: Option<int>)

  predicate Provisional(r: Reply) {
    r.scode.Some? && r.scode.value < 200
  }

  predicate Delivered(r: Reply) {
    r.err == 0 && r.scode == Some(200)
  }

  // A final response, before it sets off a flush.
  function Answered(o: Outbox, user: CString, glob: string, i: nat, r: Reply, key: string): Outbox
    requires i < |o.inflight|
  {
    var m := o.inflight[i];
    Outbox(if Delivered(r) then WriteDb(o.rows, glob, key, Idx(user, m), m, SYNC) else o.rows,
           o.flush - 1, o.inflight[..i] + o.inflight[i + 1..])
  }

  function Response(o: Outbox, user: CString, glob: string, i: nat, r: Reply, key: string, ok: bool): Outbox
    requires i < |o.inflight|
  {
    if Provisional(r) then o
    else
      var p := Answered(o, user, glob, i, r, key);
      if r.err == 0 && r.scode.Some? && p.flush == 0 then Flush(p, glob, ok) else p
  }

  function Incoming(o: Outbox, user: CString, glob: string, key: string, from: CString, m: Msg): Outbox {
    o.(rows := WriteDb(o.rows, glob, key, MessageIdx(m.sec, m.usec, from, user), m.(to := user), SYNC))
  }

  // ---------- The object ----------

  class Messages {
    const store: StoreClient
    const user: CString
    var flush: int
    var inflight: seq<Msg>

    ghost function State(): Outbox
      reads this, store.db
    {
      Outbox(store.db.rows, flush, inflight)
    }

    constructor (store: StoreClient, user: CString)
      ensures this.store == store && this.user == user && State() == Outbox(store.db.rows, 0, [])
    {
      this.store := store;
      this.user := user;
      flush := 0;
      inflight := [];
    }

    method Msend(m: Msg, ok: bool)
      modifies this`inflight
      ensures inflight == if ok then old(inflight) + [m] else old(inflight)
    {
      if ok {
        inflight := inflight + [m];
      }
    }

    // `write_db`; `key` is what `store_key` returns now.
    method StoreMessage(idx: CString, m: Msg, state: int, key: string)
      modifies store.db
      ensures store.db.rows == WriteDb(old(store.db.rows), store.keyGlob, key, idx, m, state)
    {
      var pk := new Packer();
      pk.PackArray(1);
      pk.PackArray(5);
      pk.PackInt(m.sec);
      pk.PackInt(m.usec);
      pk.PushString(m.to);
      pk.PushString(m.text);
      pk.PushString(idx);
      MsgTokens(m, idx);
      assert pk.tokens == MsgBlob(m, idx);
      store.StoreAddState(key, idx, pk.tokens, state);
    }

    /** `tcmessage`: sends a message and stores it as pending. */
    method Message(m: Msg, ok: bool, key: string)
      modifies this, store.db
      ensures State() == Submit(old(State()), user, store.keyGlob, key, m, ok)
    {
      Msend(m, ok);
      StoreMessage(Idx(user, m), m, PENDING, key);
    }

    /** `tcmessage_flush`: sends the first pending message again. */
    method MessageFlush(ok: bool)
      modifies this, store
      ensures State() == Flush(old(State()), store.keyGlob, ok)
    {
      hide Codec.Items, Codec.Parsed;
      store.StoreOrder(true);
      var bulk := store.StoreFetchState(None, MsgParse, PENDING);
      flush := 0;
      if bulk.Some? {
        SendBulk(bulk.value, ok);
      }
    }

    // `list_apply` of `send_pending`
    method SendBulk(bulk: seq<Msg>, ok: bool)
      modifies this
      ensures State() == SendPending(old(State()), bulk, ok)
    {
      var i := 0;
      while i < |bulk|
        invariant i <= |bulk| && flush == old(flush) + i
        invariant inflight == if ok then old(inflight) + bulk[..i] else old(inflight)
      {
        Msend(bulk[i], ok);
        flush := flush + 1;
        i := i + 1;
      }
      assert bulk[..i] == bulk;
    }

    /** `message_response`, for the `i`th request. */
    method MessageResponse(i: nat, r: Reply, key: string, ok: bool)
      requires i < |inflight|
      modifies this, store, store.db
      ensures State() == Response(old(State()), user, store.keyGlob, i, r, key, ok)
    {
      if Provisional(r) {
        return;
      }
      var m := inflight[i];
      inflight := inflight[..i] + inflight[i + 1..];
      flush := flush - 1;
      if r.err == 0 && r.scode.Some? {
        if r.scode.value == 200 {
          StoreMessage(Idx(user, m), m, SYNC, key);
        }
        if flush == 0 {
          MessageFlush(ok);
        }
      }
    }

    /** `message_incoming`: stores a message from `from`. */
    method MessageIncoming(from: CString, m: Msg, key: string)
      modifies store.db
      ensures State() == Incoming(old(State()), user, store.keyGlob, key, from, m)
    {
      StoreMessage(MessageIdx(m.sec, m.usec, from, user), m.(to := user), SYNC, key);
    }
  }

  // ---------- Delivery safety ----------

  datatype Event =
    | Submitted(key: string, m: Msg, ok: bool)
    | Flushed(ok: bool)
    | Responded(i: nat, r: Reply, key: string, ok: bool)
    | Received(key: string, from: CString, m: Msg)

  function Step(o: Outbox, user: CString, glob: string, e: Event): Outbox
    requires e.Responded? ==> e.i < |o.inflight|
  {
    match e
    case Submitted(key, m, ok) => Submit(o, user, glob, key, m, ok)
    case Flushed(ok) => Flush(o, glob, ok)
    case Responded(i, r, key, ok) => Response(o, user, glob, i, r, key, ok)
    case Received(key, from, m) => Incoming(o, user, glob, key, from, m)
  }

  // The index an event may write a delivered row for: a 200 to a request, or an incoming message.
  function Confirms(o: Outbox, user: CString, e: Event): set<string>
    requires e.Responded? ==> e.i < |o.inflight|
  {
    match e
    case Responded(i, r, _, _) => if Delivered(r) then {Idx(user, o.inflight[i])} else {}
    case Received(_, from, m) => {MessageIdx(m.sec, m.usec, from, user)}
    case _ => {}
  }

  // A submitted message has an index of its own, and every write has a fresh key.
  predicate Legal(o: Outbox, user: CString, glob: string, e: Event) {
    match e
    case Submitted(key, m, _) => Idx(user, m) !in View(o.rows, glob) && Fresh(o.rows, glob, key, Idx(user, m))
    case Flushed(_) => true
    case Responded(i, r, key, _) => i < |o.inflight| && (Delivered(r) ==>
        Fresh(o.rows, glob, key, Idx(user, o.inflight[i])))
    case Received(key, from, m) => Fresh(o.rows, glob, key, MessageIdx(m.sec, m.usec, from, user))
  }

  // A pending row reads back as one message, which has the index of the row.
  ghost predicate PendingOk(blob: Blob, k: string, user: CString) {
    |MsgsParsed(blob)| == 1 && Idx(user, MsgsParsed(blob)[0]) == k
  }

  ghost predicate Good(o: Outbox, user: CString, glob: string, submitted: set<string>, confirmed: set<string>) {
    && Unique(o.rows, glob)
    && (var v := View(o.rows, glob);
        && (forall k | k in v :: v[k].0 == SYNC || v[k].0 == PENDING)
        && (forall k | k in v && v[k].0 == SYNC :: k in confirmed)
        && (forall k | k in confirmed :: k in v && v[k].0 == SYNC)
        && (forall k | k in v && v[k].0 == PENDING :: PendingOk(v[k].1, k, user))
        && (forall k | k in submitted :: k in v)
        && (forall m | m in o.inflight :: Idx(user, m) in v))
  }

  // Absent, pending, delivered.
  function Rank(rows: seq<Row>, glob: string, k: string): int {
    var v := View(rows, glob);
    if k !in v then 0 else if v[k].0 == SYNC then 2 else 1
  }

  ghost predicate NeverBack(before: seq<Row>, after: seq<Row>, glob: string) {
    forall k :: Rank(before, glob, k) <= Rank(after, glob, k)
  }

  // One row is written.
  lemma WriteKeeps(o: Outbox, user: CString, glob: string, submitted: set<string>, confirmed: set<string>,
                   key: string, idx: CString, m: Msg, state: int)
    requires Good(o, user, glob, submitted, confirmed) && Fresh(o.rows, glob, key, idx)
    requires idx != "" && (state == SYNC || (state == PENDING && idx !in View(o.rows, glob) && idx == Idx(user, m)))
    ensures var rows := WriteDb(o.rows, glob, key, idx, m, state);
            && View(rows, glob) == View(o.rows, glob)[idx := (state, MsgBlob(m, idx))]
            && NeverBack(o.rows, rows, glob)
            && Good(o.(rows := rows), user, glob, submitted + {idx},
                    if state == SYNC then confirmed + {idx} else confirmed)
  {
    hide Store.View, Store.Unique, Store.AddState, Codec.MsgBlob, Codec.MsgsParsed, Idx;
    AddUpdatesView(o.rows, glob, key, idx, MsgBlob(m, idx), state);
    AddKeepsUniqueIffFresh(o.rows, glob, key, idx, MsgBlob(m, idx), state);
    MsgRoundTrip(m, idx);
    IdxIgnoresIdx(user, m, Some(idx));
  }

  lemma IdxIgnoresIdx(user: CString, m: Msg, idx: Option<CString>)
    ensures Idx(user, m.(idx := idx)) == Idx(user, m)
  {
  }

  /** Sending again sends the stored message under its own index, and writes nothing. */
  lemma FlushKeeps(o: Outbox, user: CString, glob: string, submitted: set<string>, confirmed: set<string>, ok: bool)
    requires Good(o, user, glob, submitted, confirmed)
    ensures Good(Flush(o, glob, ok), user, glob, submitted, confirmed)
    ensures var r := Fetch(o.rows, glob, PENDING, None, true);
            && Flush(o, glob, ok).rows == o.rows
            && (r == None ==> Flush(o, glob, ok) == o.(flush := 0))
            && (r.Some? ==> Flush(o, glob, ok).flush == 1)
            && (r.Some? ==> r.value.idx in View(o.rows, glob) &&
                            View(o.rows, glob)[r.value.idx] == (PENDING, r.value.blob))
            && (r.Some? && ok ==>
                exists m :: Flush(o, glob, ok).inflight == o.inflight + [m] && Idx(user, m) == r.value.idx &&
                            MsgsParsed(r.value.blob) == [m])
  {
    hide Store.View, Store.Unique, Codec.MsgsParsed, Idx;
    match Fetch(o.rows, glob, PENDING, None, true)
    case None =>
    case Some(r) =>
      UniqueRowIsInView(o.rows, glob, r);
      assert PendingOk(r.blob, r.idx, user);
      var m := MsgsParsed(r.blob)[0];
      assert MsgsParsed(r.blob) == [m];
      assert ok ==> Flush(o, glob, ok).inflight == o.inflight + [m];
  }

  lemma AnsweredKeeps(o: Outbox, user: CString, glob: string, submitted: set<string>, confirmed: set<string>,
                      i: nat, r: Reply, key: string)
    requires Good(o, user, glob, submitted, confirmed) && !Provisional(r) && i < |o.inflight|
    requires Delivered(r) ==> Fresh(o.rows, glob, key, Idx(user, o.inflight[i]))
    ensures var p := Answered(o, user, glob, i, r, key);
            && Good(p, user, glob, submitted, if Delivered(r) then confirmed + {Idx(user, o.inflight[i])}
                else confirmed)
            && NeverBack(o.rows, p.rows, glob)
  {
    hide Store.View, Store.Unique, WriteDb, Store.Fresh, Idx, PendingOk;
    var m := o.inflight[i];
    assert m in o.inflight;
    if Delivered(r) {
      WriteKeeps(o, user, glob, submitted, confirmed, key, Idx(user, m), m, SYNC);
    }
  }

  lemma ResponseKeeps(o: Outbox, user: CString, glob: string, submitted: set<string>, confirmed: set<string>,
                      i: nat, r: Reply, key: string, ok: bool)
    requires Good(o, user, glob, submitted, confirmed) && Legal(o, user, glob, Responded(i, r, key, ok))
    ensures var q := Response(o, user, glob, i, r, key, ok);
            && Good(q, user, glob, submitted, confirmed + Confirms(o, user, Responded(i, r, key, ok)))
            && NeverBack(o.rows, q.rows, glob)
            && (if o.flush < 0 then o.flush else 0) - (if Provisional(r) then 0 else 1) <= q.flush
            && (o.flush <= 1 ==> q.flush <= 1)
  {
    hide Good, Answered, NeverBack, Store.Fresh, Idx, Flush;
    if !Provisional(r) {
      var p := Answered(o, user, glob, i, r, key);
      var confirmed' := if Delivered(r) then confirmed + {Idx(user, o.inflight[i])} else confirmed;
      assert confirmed' == confirmed + Confirms(o, user, Responded(i, r, key, ok));
      AnsweredKeeps(o, user, glob, submitted, confirmed, i, r, key);
      AnsweredCounts(o, user, glob, i, r, key);
      FlushKeeps(p, user, glob, submitted, confirmed', ok);
    } else {
      NotBackAtAll(o.rows, glob);
      assert confirmed + {} == confirmed;
    }
  }

  lemma AnsweredCounts(o: Outbox, user: CString, glob: string, i: nat, r: Reply, key: string)
    requires i < |o.inflight|
    ensures Answered(o, user, glob, i, r, key).flush == o.flush - 1
    ensures |Answered(o, user, glob, i, r, key).inflight| == |o.inflight| - 1
  {
  }

  lemma NotBackAtAll(rows: seq<Row>, glob: string)
    ensures NeverBack(rows, rows, glob)
  {
  }

  function Noted(submitted: set<string>, user: CString, e: Event): set<string> {
    if e.Submitted? then
      var idx: string := Idx(user, e.m);
      submitted + {idx}
    else submitted
  }

  lemma StepKeeps(o: Outbox, user: CString, glob: string, submitted: set<string>, confirmed: set<string>, e: Event)
    requires Good(o, user, glob, submitted, confirmed) && Legal(o, user, glob, e)
    ensures var q := Step(o, user, glob, e);
            && Good(q, user, glob, Noted(submitted, user, e), confirmed + Confirms(o, user, e))
            && NeverBack(o.rows, q.rows, glob)
  {
    hide Store.View, Store.Unique, WriteDb, Store.Fresh, Idx, MessageIdx, Flush, Response, PendingOk;
    match e
    case Submitted(key, m, ok) =>
      WriteKeeps(o, user, glob, submitted, confirmed, key, Idx(user, m), m, PENDING);
    case Flushed(ok) =>
      FlushKeeps(o, user, glob, submitted, confirmed, ok);
    case Responded(i, r, key, ok) =>
      ResponseKeeps(o, user, glob, submitted, confirmed, i, r, key, ok);
    case Received(key, from, m) =>
      WriteKeeps(o, user, glob, submitted, confirmed, key, MessageIdx(m.sec, m.usec, from, user), m.(to := user), SYNC);
  }

  ghost predicate LegalRun(o: Outbox, user: CString, glob: string, events: seq<Event>)
    decreases |events|
  {
    events == [] ||
    (Legal(o, user, glob, events[0]) && LegalRun(Step(o, user, glob, events[0]), user, glob, events[1..]))
  }

  // The state after a run, the indexes submitted, and the indexes confirmed.
  ghost function After(o: Outbox, user: CString, glob: string, submitted: set<string>, confirmed: set<string>,
                       events: seq<Event>): (Outbox, set<string>, set<string>)
    requires LegalRun(o, user, glob, events)
    decreases |events|
  {
    if events == [] then (o, submitted, confirmed)
    else
      After(Step(o, user, glob, events[0]), user, glob, Noted(submitted, user, events[0]),
            confirmed + Confirms(o, user, events[0]), events[1..])
  }

  /**
   Over every interleaving: a message's current row goes from absent to pending to delivered and never
   back, every submitted message has a current row, and the delivered rows are those of the indexes that got a
   200 or came in.
   */
  lemma {:induction false} DeliveryIsSafe(o: Outbox, user: CString, glob: string, submitted: set<string>,
                                          confirmed: set<string>, events: seq<Event>)
    requires Good(o, user, glob, submitted, confirmed) && LegalRun(o, user, glob, events)
    ensures var (q, sub, conf) := After(o, user, glob, submitted, confirmed, events);
            && NeverBack(o.rows, q.rows, glob)
            && (forall k | k in sub :: Rank(q.rows, glob, k) >= 1)
            && (forall k :: Rank(q.rows, glob, k) == 2 <==> k in conf)
            && submitted <= sub && Good(q, user, glob, sub, conf)
    decreases |events|
  {
    hide Store.View, Store.Unique, Idx, MessageIdx, Step, PendingOk, Confirms;
    if events != [] {
      StepKeeps(o, user, glob, submitted, confirmed, events[0]);
      DeliveryIsSafe(Step(o, user, glob, events[0]), user, glob, Noted(submitted, user, events[0]),
                     confirmed + Confirms(o, user, events[0]), events[1..]);
    }
  }

  // The indexes of the messages received in a run, and of the requests that got a 200.
  function ReceivedIn(user: CString, events: seq<Event>): set<string> {
    if events == [] then {}
    else
      match events[0]
      case Received(_, from, m) => {MessageIdx(m.sec, m.usec, from, user)} + ReceivedIn(user, events[1..])
      case _ => ReceivedIn(user, events[1..])
  }

  ghost function RepliedIn(o: Outbox, user: CString, glob: string, events: seq<Event>): set<string>
    requires LegalRun(o, user, glob, events)
    decreases |events|
  {
    if events == [] then {}
    else
      var rest := RepliedIn(Step(o, user, glob, events[0]), user, glob, events[1..]);
      match events[0]
      case Responded(i, r, _, _) => if Delivered(r) then {Idx(user, o.inflight[i])} + rest else rest
      case _ => rest
  }

  lemma {:induction false} ConfirmedIn(o: Outbox, user: CString, glob: string, submitted: set<string>,
                                       confirmed: set<string>, events: seq<Event>)
    requires LegalRun(o, user, glob, events)
    ensures After(o, user, glob, submitted, confirmed, events).2 ==
            confirmed + RepliedIn(o, user, glob, events) + ReceivedIn(user, events)
    decreases |events|
  {
    hide Idx, MessageIdx, Step;
    if events != [] {
      ConfirmedIn(Step(o, user, glob, events[0]), user, glob, Noted(submitted, user, events[0]),
                  confirmed + Confirms(o, user, events[0]), events[1..]);
    }
  }

  /** From any outbox, what is delivered is exactly what was before, what got a 200, and what was received. */
  lemma DeliveredFrom(o: Outbox, user: CString, glob: string, submitted: set<string>, confirmed: set<string>,
                      events: seq<Event>, k: string)
    requires Good(o, user, glob, submitted, confirmed) && LegalRun(o, user, glob, events)
    ensures Rank(After(o, user, glob, submitted, confirmed, events).0.rows, glob, k) == 2 <==>
            k in confirmed || k in RepliedIn(o, user, glob, events) || k in ReceivedIn(user, events)
  {
    hide Good, LegalRun, After, Rank;
    DeliveryIsSafe(o, user, glob, submitted, confirmed, events);
    ConfirmedIn(o, user, glob, submitted, confirmed, events);
  }

  const Empty := Outbox([], 0, [])

  lemma EmptyOutboxIsGood(user: CString, glob: string)
    ensures Good(Empty, user, glob, {}, {})
  {
  }

  ghost function Ended(user: CString, glob: string, events: seq<Event>): Outbox
    requires LegalRun(Empty, user, glob, events)
  {
    After(Empty, user, glob, {}, {}, events).0
  }

  /**
   From an empty outbox, what is delivered is exactly what got a 200 and what was received, and nothing submitted
   is ever without a row.
   */
  lemma DeliveredExactly(user: CString, glob: string, events: seq<Event>, k: string)
    requires LegalRun(Empty, user, glob, events)
    ensures Rank(Ended(user, glob, events).rows, glob, k) == 2 <==>
            k in RepliedIn(Empty, user, glob, events) || k in ReceivedIn(user, events)
    ensures k in After(Empty, user, glob, {}, {}, events).1 ==> Rank(Ended(user, glob, events).rows, glob, k) >= 1
  {
    hide Good, LegalRun, After, Rank;
    EmptyOutboxIsGood(user, glob);
    DeliveryIsSafe(Empty, user, glob, {}, {}, events);
    DeliveredFrom(Empty, user, glob, {}, {}, events, k);
  }

  // The address after the last arrow of an index.
  lemma LastArrow(x: string, to: string, y: string, other: string)
    requires x + ">" + to == y + ">" + other && '>' !in to && '>' !in other
    ensures to == other
  {
    var s := x + ">" + to;
    assert s[|x|] == '>' && s[|y|] == '>';
    assert forall k | |x| < k < |s| :: s[k] == to[k - |x| - 1];
    assert forall k | |y| < k < |s| :: s[k] == other[k - |y| - 1];
    assert |x| == |y|;
    assert s[|x| + 1..] == to && s[|y| + 1..] == other;
  }

  lemma IdxTellsTo(a: Msg, from: CString, to: CString, b: Msg, from': CString, to': CString)
    requires MessageIdx(a.sec, a.usec, from, to) == MessageIdx(b.sec, b.usec, from', to')
    requires '>' !in to && '>' !in to'
    ensures to == to'
  {
    var x := Print(a.sec) + "." + Pad6(Print(a.usec)) + "@" + from + "-";
    var y := Print(b.sec) + "." + Pad6(Print(b.usec)) + "@" + from' + "-";
    assert x + ">" + to == MessageIdx(a.sec, a.usec, from, to);
    assert y + ">" + to' == MessageIdx(b.sec, b.usec, from', to');
    LastArrow(x, to, y, to');
  }

  lemma {:induction false} NotReceived(user: CString, events: seq<Event>, m: Msg)
    requires m.to != user && '>' !in m.to && '>' !in user
    ensures Idx(user, m) !in ReceivedIn(user, events)
  {
    hide MessageIdx;
    if events != [] {
      NotReceived(user, events[1..], m);
      if events[0].Received? && Idx(user, m) == MessageIdx(events[0].m.sec, events[0].m.usec, events[0].from, user) {
        IdxTellsTo(m, user, m.to, events[0].m, events[0].from, user);
      }
    }
  }

  // However the outbox is used, the message is delivered only by a 200 to its own request.
  ghost predicate OnlyByReply(user: CString, glob: string, m: Msg) {
    forall events: seq<Event> | LegalRun(Empty, user, glob, events) ::
      Rank(Ended(user, glob, events).rows, glob, Idx(user, m)) == 2 ==>
          Idx(user, m) in RepliedIn(Empty, user, glob, events)
  }

  /**
   For addresses without '>': a message is delivered exactly by a 200 to its request in every run, unless it is
   to oneself.
   */
  lemma DeliveredMeansReply(user: CString, glob: string, m: Msg)
    requires '>' !in user && '>' !in m.to
    ensures OnlyByReply(user, glob, m) <==> m.to != user
    ensures m.to != user ==>
              forall events: seq<Event> | LegalRun(Empty, user, glob, events) ::
                (Rank(Ended(user, glob, events).rows, glob, Idx(user, m)) == 2 <==>
                 Idx(user, m) in RepliedIn(Empty, user, glob, events))
  {
    hide LegalRun, Rank, RepliedIn, ReceivedIn, Ended, Idx;
    if m.to != user {
      forall events: seq<Event> | LegalRun(Empty, user, glob, events)
        ensures Rank(Ended(user, glob, events).rows, glob, Idx(user, m)) == 2 <==>
                Idx(user, m) in RepliedIn(Empty, user, glob, events)
      {
        DeliveredExactly(user, glob, events, Idx(user, m));
        NotReceived(user, events, m);
      }
    } else {
      var events := OwnMessageRun(user, glob, m);
    }
  }

  /** A message to oneself comes back under its own index, and is marked as delivered without any reply. */
  lemma OwnMessageConfirmsItself(o: Outbox, user: CString, glob: string, submitted: set<string>, confirmed: set<string>,
                                 m: Msg, key: string)
    requires Good(o, user, glob, submitted, confirmed) && m.to == user && Rank(o.rows, glob, Idx(user, m)) == 1
    requires Legal(o, user, glob, Received(key, user, m))
    ensures var q := Incoming(o, user, glob, key, user, m);
            Rank(q.rows, glob, Idx(user, m)) == 2 && q.inflight == o.inflight
  {
    hide View, AddState;
    WriteKeeps(o, user, glob, submitted, confirmed, key, Idx(user, m), m.(to := user), SYNC);
  }

  lemma RunOfTwo(o: Outbox, user: CString, glob: string, a: Event, b: Event)
    requires Legal(o, user, glob, a) && Legal(Step(o, user, glob, a), user, glob, b)
    ensures LegalRun(o, user, glob, [a, b])
    ensures After(o, user, glob, {}, {}, [a, b]).0 == Step(Step(o, user, glob, a), user, glob, b)
    ensures !a.Responded? && !b.Responded? ==> RepliedIn(o, user, glob, [a, b]) == {}
  {
    hide Step, Store.Fresh, Store.View, Noted, Confirms;
    var p := Step(o, user, glob, a);
    var q := Step(p, user, glob, b);
    assert [a, b][1..] == [b] && [b][1..] == [];
    assert LegalRun(q, user, glob, []) && LegalRun(p, user, glob, [b]);
    OneStep(p, user, glob, b, Noted({}, user, a), {} + Confirms(o, user, a));
    assert RepliedIn(q, user, glob, []) == {};
    assert !b.Responded? ==> RepliedIn(p, user, glob, [b]) == {};
  }

  lemma OneStep(o: Outbox, user: CString, glob: string, e: Event, submitted: set<string>, confirmed: set<string>)
    requires Legal(o, user, glob, e) && LegalRun(o, user, glob, [e])
    ensures After(o, user, glob, submitted, confirmed, [e]).0 == Step(o, user, glob, e)
  {
    hide Step, Store.Fresh, Store.View, Noted, Confirms;
    assert [e][1..] == [];
  }

  // Such a run: the message is sent, and comes in before any reply.
  lemma OwnMessageRun(user: CString, glob: string, m: Msg) returns (events: seq<Event>)
    requires m.to == user
    ensures LegalRun(Empty, user, glob, events) && Submitted(glob + "1", m, true) in events
    ensures Rank(Ended(user, glob, events).rows, glob, Idx(user, m)) == 2 && RepliedIn(Empty, user, glob, events) == {}
  {
    hide Good, Store.Fresh, MessageIdx, Step, LegalRun, After, RepliedIn, Rank;
    var sent, received := Submitted(glob + "1", m, true), Received(glob + "2", user, m);
    events := [sent, received];
    SubmitFirst(user, glob, m, ["1", "2"]);
    RunOfTwo(Empty, user, glob, sent, received);
    DeliveredExactly(user, glob, events, Idx(user, m));
    assert events[1..] == [received];
    assert Idx(user, m) in ReceivedIn(user, [received]);
  }

  // A message can be submitted to an empty outbox, and the next key is fresh.
  lemma SubmitFirst(user: CString, glob: string, m: Msg, ends: seq<string>)
    requires |ends| == 2 && Less(ends[0], ends[1])
    ensures var e := Submitted(glob + ends[0], m, true);
            && Legal(Empty, user, glob, e)
            && Fresh(Step(Empty, user, glob, e).rows, glob, glob + ends[1], Idx(user, m))
            && Step(Empty, user, glob, e).flush == 0 && Step(Empty, user, glob, e).inflight == [m]
  {
    hide Idx, MsgBlob;
    var keys := [glob + ends[0], glob + ends[1]];
    LessAfterPrefix(glob, ends[0], ends[1]);
    assert KeysAhead([], glob, keys);
    KeysStayAhead([], glob, keys, Idx(user, m), MsgBlob(m, Idx(user, m)), PENDING);
    var rows := WriteDb([], glob, keys[0], Idx(user, m), m, PENDING);
    assert keys[1..] == [keys[1]];
    FreshOfAhead(rows, glob, keys[1], Idx(user, m));
  }

  lemma FreshOfAhead(rows: seq<Row>, glob: string, key: string, idx: string)
    requires KeysAhead(rows, glob, [key])
    ensures Fresh(rows, glob, key, idx)
  {
    assert [key][0] == key;
  }

  // ---------- What is stored and sent ----------

  // The same message, whatever row it was read from.
  predicate Same(a: Msg, b: Msg) {
    a.sec == b.sec && a.usec == b.usec && a.to == b.to && a.text == b.text
  }

  // What was submitted under each index, what the current row of each index should hold, and what came in.
  datatype Notes = Notes(sent: map<string, Msg>, held: map<string, Msg>, came: set<string>)

  const NoNotes := Notes(map[], map[], {})

  function Note(n: Notes, o: Outbox, user: CString, e: Event): Notes
    requires e.Responded? ==> e.i < |o.inflight|
  {
    match e
    case Submitted(_, m, _) =>
      var k: string := Idx(user, m);
      n.(sent := n.sent[k := m], held := n.held[k := m])
    case Responded(i, r, _, _) =>
      if Delivered(r) then
        var k: string := Idx(user, o.inflight[i]);
        n.(held := n.held[k := o.inflight[i]])
      else n
    case Received(_, from, m) =>
      var k: string := MessageIdx(m.sec, m.usec, from, user);
      n.(held := n.held[k := m.(to := user)], came := n.came + {k})
    case Flushed(_) => n
  }

  ghost predicate Reads(blob: Blob, m: Msg) {
    |MsgsParsed(blob)| == 1 && Same(MsgsParsed(blob)[0], m)
  }

  // Every current row holds its message, a pending one what was submitted; and so does every request in flight.
  ghost predicate Kept(v: map<string, (int, Blob)>, inflight: seq<Msg>, user: CString, n: Notes) {
    && (forall k | k in v :: k in n.held && Reads(v[k].1, n.held[k]))
    && (forall k | k in n.sent :: k in v)
    && (forall k | k in n.came :: k in v)
    && (forall k | k in n.sent && k !in n.came :: k in n.held && Same(n.held[k], n.sent[k]))
    && (forall k | k in v && v[k].0 == PENDING :: k in n.sent && k !in n.came)
    && (forall m | m in inflight :: Idx(user, m) in n.sent && Same(m, n.sent[Idx(user, m)]))
  }

  lemma ReadsBack(m: Msg, idx: CString)
    requires idx != ""
    ensures Reads(MsgBlob(m, idx), m)
  {
    hide MsgBlob, MsgsParsed;
    MsgRoundTrip(m, idx);
  }

  lemma SubmitKept(o: Outbox, user: CString, glob: string, submitted: set<string>, confirmed: set<string>,
                   n: Notes, key: string, m: Msg, ok: bool)
    requires Good(o, user, glob, submitted, confirmed) && Legal(o, user, glob, Submitted(key, m, ok))
    requires Kept(View(o.rows, glob), o.inflight, user, n)
    ensures var q := Submit(o, user, glob, key, m, ok);
            Kept(View(q.rows, glob), q.inflight, user, Note(n, o, user, Submitted(key, m, ok)))
  {
    hide Good, Store.View, Store.Fresh, WriteDb, Idx, Reads, MsgBlob;
    WriteKeeps(o, user, glob, submitted, confirmed, key, Idx(user, m), m, PENDING);
    ReadsBack(m, Idx(user, m));
  }

  lemma AnsweredKept(o: Outbox, user: CString, glob: string, submitted: set<string>, confirmed: set<string>,
                     n: Notes, i: nat, r: Reply, key: string, ok: bool)
    requires Good(o, user, glob, submitted, confirmed) && Legal(o, user, glob, Responded(i, r, key, ok))
    requires Kept(View(o.rows, glob), o.inflight, user, n) && !Provisional(r)
    ensures var p := Answered(o, user, glob, i, r, key);
            Kept(View(p.rows, glob), p.inflight, user, Note(n, o, user, Responded(i, r, key, ok)))
  {
    hide Store.View, Store.Fresh, WriteDb, Idx, Reads, MsgBlob, PendingOk, Store.Unique;
    var m := o.inflight[i];
    assert m in o.inflight;
    if Delivered(r) {
      WriteKeeps(o, user, glob, submitted, confirmed, key, Idx(user, m), m, SYNC);
      ReadsBack(m, Idx(user, m));
    }
  }

  lemma ReceivedKept(o: Outbox, user: CString, glob: string, submitted: set<string>, confirmed: set<string>,
                     n: Notes, key: string, from: CString, m: Msg)
    requires Good(o, user, glob, submitted, confirmed) && Legal(o, user, glob, Received(key, from, m))
    requires Kept(View(o.rows, glob), o.inflight, user, n)
    ensures var q := Incoming(o, user, glob, key, from, m);
            Kept(View(q.rows, glob), q.inflight, user, Note(n, o, user, Received(key, from, m)))
  {
    hide Good, Store.View, Store.Fresh, WriteDb, Idx, MessageIdx, Reads, MsgBlob;
    WriteKeeps(o, user, glob, submitted, confirmed, key, MessageIdx(m.sec, m.usec, from, user), m.(to := user), SYNC);
    ReadsBack(m.(to := user), MessageIdx(m.sec, m.usec, from, user));
  }

  /** What a flush sends again is the message submitted under the index of the row. */
  lemma FlushKept(o: Outbox, user: CString, glob: string, submitted: set<string>, confirmed: set<string>,
                  n: Notes, ok: bool)
    requires Good(o, user, glob, submitted, confirmed) && Kept(View(o.rows, glob), o.inflight, user, n)
    ensures var q := Flush(o, glob, ok);
            && Kept(View(q.rows, glob), q.inflight, user, n)
            && (Waiting(o.rows, glob) && ok ==>
                exists m :: q.inflight == o.inflight + [m] && Idx(user, m) in n.sent && Same(m, n.sent[Idx(user, m)]))
  {
    hide Good, Store.View, Idx, Flush, MsgsParsed;
    FlushKeeps(o, user, glob, submitted, confirmed, ok);
    RefusedFlush(o, glob);
  }

  lemma StepKept(o: Outbox, user: CString, glob: string, submitted: set<string>, confirmed: set<string>,
                 n: Notes, e: Event)
    requires Good(o, user, glob, submitted, confirmed) && Legal(o, user, glob, e)
    requires Kept(View(o.rows, glob), o.inflight, user, n)
    ensures var q := Step(o, user, glob, e); Kept(View(q.rows, glob), q.inflight, user, Note(n, o, user, e))
  {
    hide Good, Store.View, Store.Fresh, Kept, Submit, Incoming, Flush, Answered;
    match e
    case Submitted(key, m, ok) => SubmitKept(o, user, glob, submitted, confirmed, n, key, m, ok);
    case Flushed(ok) => FlushKept(o, user, glob, submitted, confirmed, n, ok);
    case Received(key, from, m) => ReceivedKept(o, user, glob, submitted, confirmed, n, key, from, m);
    case Responded(i, r, key, ok) =>
      if !Provisional(r) {
        AnsweredKept(o, user, glob, submitted, confirmed, n, i, r, key, ok);
        AnsweredKeeps(o, user, glob, submitted, confirmed, i, r, key);
        FlushKept(Answered(o, user, glob, i, r, key), user, glob, submitted,
                  if Delivered(r) then confirmed + {Idx(user, o.inflight[i])} else confirmed,
                  Note(n, o, user, e), ok);
      }
  }

  // The notes after a run.
  ghost function NotesAfter(o: Outbox, user: CString, glob: string, n: Notes, events: seq<Event>): Notes
    requires LegalRun(o, user, glob, events)
    decreases |events|
  {
    if events == [] then n
    else NotesAfter(Step(o, user, glob, events[0]), user, glob, Note(n, o, user, events[0]), events[1..])
  }

  lemma {:induction false} RunKept(o: Outbox, user: CString, glob: string, submitted: set<string>,
                                   confirmed: set<string>, n: Notes, events: seq<Event>)
    requires Good(o, user, glob, submitted, confirmed) && LegalRun(o, user, glob, events)
    requires Kept(View(o.rows, glob), o.inflight, user, n)
    ensures var q := After(o, user, glob, submitted, confirmed, events).0;
            Kept(View(q.rows, glob), q.inflight, user, NotesAfter(o, user, glob, n, events))
    decreases |events|
  {
    hide Good, Store.View, Store.Fresh, Kept, Step, Note, Noted, Confirms;
    if events != [] {
      StepKept(o, user, glob, submitted, confirmed, n, events[0]);
      StepKeeps(o, user, glob, submitted, confirmed, events[0]);
      RunKept(Step(o, user, glob, events[0]), user, glob, Noted(submitted, user, events[0]),
              confirmed + Confirms(o, user, events[0]), Note(n, o, user, events[0]), events[1..]);
    }
  }

  // The submit of index `k` in a run, if there is one: the last, were there several.
  function SentIn(user: CString, events: seq<Event>, k: string): Option<Msg> {
    if events == [] then None
    else
      var e := events[|events| - 1];
      if e.Submitted? && Idx(user, e.m) == k then Some(e.m) else SentIn(user, events[..|events| - 1], k)
  }

  lemma {:induction false} SentIsSubmitted(o: Outbox, user: CString, glob: string, n: Notes, events: seq<Event>,
                                           k: string)
    requires LegalRun(o, user, glob, events)
    ensures var sent := NotesAfter(o, user, glob, n, events).sent;
            match SentIn(user, events, k)
            case Some(m) => k in sent && sent[k] == m
            case None => (k in sent <==> k in n.sent) && (k in sent ==> sent[k] == n.sent[k])
    decreases |events|
  {
    hide Step, Idx, MessageIdx, Delivered, Store.Fresh, Store.View;
    if events != [] {
      SentIsSubmitted(Step(o, user, glob, events[0]), user, glob, Note(n, o, user, events[0]), events[1..], k);
      SentFromFront(user, events, k);
    }
  }

  lemma {:induction false} SentFromFront(user: CString, events: seq<Event>, k: string)
    requires events != []
    ensures SentIn(user, events, k) ==
            if SentIn(user, events[1..], k).Some? then SentIn(user, events[1..], k)
            else if events[0].Submitted? && Idx(user, events[0].m) == k then Some(events[0].m) else None
    decreases |events|
  {
    hide Idx;
    if |events| > 1 {
      SentFromFront(user, events[..|events| - 1], k);
      assert events[..|events| - 1][1..] == events[1..][..|events| - 2];
    } else {
      assert events[1..] == [] && events[..0] == [];
    }
  }

  /**
   From an empty outbox, over every run: the current row of a submitted message parses to one message with the
   time, address and text that were submitted, unless a message of its index came in; and so is every request in
   flight one that was submitted, whether it is the first or a resent one.
   */
  lemma MessagesAreKept(user: CString, glob: string, events: seq<Event>)
    requires LegalRun(Empty, user, glob, events)
    ensures var q, v := Ended(user, glob, events), View(Ended(user, glob, events).rows, glob);
            && (forall k | k !in ReceivedIn(user, events) && SentIn(user, events, k).Some? ::
                  k in v && Reads(v[k].1, SentIn(user, events, k).value))
            && (forall k | k in v && v[k].0 == PENDING ::
                  SentIn(user, events, k).Some? && Reads(v[k].1, SentIn(user, events, k).value))
            && (forall m | m in q.inflight ::
                  SentIn(user, events, Idx(user, m)).Some? && Same(m, SentIn(user, events, Idx(user, m)).value))
  {
    hide LegalRun, After, NotesAfter, SentIn, ReceivedIn, Idx, MsgsParsed, Store.View;
    EmptyOutboxIsGood(user, glob);
    EmptyKept(user, glob);
    RunKept(Empty, user, glob, {}, {}, NoNotes, events);
    var n := NotesAfter(Empty, user, glob, NoNotes, events);
    CameIsReceived(Empty, user, glob, NoNotes, events);
    forall k ensures match SentIn(user, events, k)
                     case Some(m) => k in n.sent && n.sent[k] == m
                     case None => k !in n.sent
    {
      SentIsSubmitted(Empty, user, glob, NoNotes, events, k);
    }
  }

  lemma EmptyKept(user: CString, glob: string)
    ensures Kept(View(Empty.rows, glob), Empty.inflight, user, NoNotes)
  {
  }

  lemma {:induction false} CameIsReceived(o: Outbox, user: CString, glob: string, n: Notes, events: seq<Event>)
    requires LegalRun(o, user, glob, events)
    ensures NotesAfter(o, user, glob, n, events).came == n.came + ReceivedIn(user, events)
    decreases |events|
  {
    hide Step, Idx, MessageIdx, Delivered, Store.Fresh, Store.View;
    if events != [] {
      CameIsReceived(Step(o, user, glob, events[0]), user, glob, Note(n, o, user, events[0]), events[1..]);
    }
  }

  /** An incoming message is stored with its time and text, under the address it came to. */
  lemma IncomingIsStored(o: Outbox, user: CString, glob: string, submitted: set<string>, confirmed: set<string>,
                         key: string, from: CString, m: Msg)
    requires Good(o, user, glob, submitted, confirmed) && Legal(o, user, glob, Received(key, from, m))
    ensures var v := View(Incoming(o, user, glob, key, from, m).rows, glob);
            var k: string := MessageIdx(m.sec, m.usec, from, user);
            k in v && v[k].0 == SYNC && Reads(v[k].1, m.(to := user))
  {
    hide Good, Store.View, Store.Fresh, WriteDb, MessageIdx, Reads, MsgBlob;
    WriteKeeps(o, user, glob, submitted, confirmed, key, MessageIdx(m.sec, m.usec, from, user), m.(to := user), SYNC);
    ReadsBack(m.(to := user), MessageIdx(m.sec, m.usec, from, user));
  }

  // ---------- The counter ----------

  // The final responses of a run.
  function Finals(events: seq<Event>): nat {
    if events == [] then 0
    else (if events[0].Responded? && !Provisional(events[0].r) then 1 else 0) + Finals(events[1..])
  }

  /** Over every run `flush` is at most 1, and as far below zero as there were final responses at most. */
  lemma {:induction false} FlushIsBounded(o: Outbox, user: CString, glob: string, submitted: set<string>,
                                          confirmed: set<string>, events: seq<Event>)
    requires Good(o, user, glob, submitted, confirmed) && LegalRun(o, user, glob, events) && o.flush <= 1
    ensures var q := After(o, user, glob, submitted, confirmed, events).0;
            (if o.flush < 0 then o.flush else 0) - Finals(events) <= q.flush <= 1
    decreases |events|
  {
    hide Good, Store.Fresh, Store.View, Step, Noted, Confirms;
    if events != [] {
      StepKeeps(o, user, glob, submitted, confirmed, events[0]);
      StepBoundsFlush(o, user, glob, submitted, confirmed, events[0]);
      FlushIsBounded(Step(o, user, glob, events[0]), user, glob, Noted(submitted, user, events[0]),
                     confirmed + Confirms(o, user, events[0]), events[1..]);
    }
  }

  lemma StepBoundsFlush(o: Outbox, user: CString, glob: string, submitted: set<string>, confirmed: set<string>,
      e: Event)
    requires Good(o, user, glob, submitted, confirmed) && Legal(o, user, glob, e) && o.flush <= 1
    ensures (if o.flush < 0 then o.flush else 0) - (if e.Responded? && !Provisional(e.r) then 1 else 0) <=
            Step(o, user, glob, e).flush <= 1
  {
    hide Good, Store.Fresh, Idx, Flush, Response, WriteDb;
    match e
    case Flushed(ok) => FlushKeeps(o, user, glob, submitted, confirmed, ok);
    case Responded(i, r, key, ok) => ResponseKeeps(o, user, glob, submitted, confirmed, i, r, key, ok);
    case _ =>
  }

  /**
   One message, submitted and answered by a 200, leaves nothing in flight and `flush` at -1: a submit does not
   count.
   */
  lemma SubmitDrifts(user: CString, glob: string, m: Msg, ok: bool)
    ensures var events := [Submitted(glob + "1", m, true), Responded(0, Reply(0, Some(200)), glob + "2", ok)];
            && LegalRun(Empty, user, glob, events)
            && Ended(user, glob, events).flush == -1 && Ended(user, glob, events).inflight == []
  {
    hide Store.Fresh, Idx, Flush, LegalRun, After, Answered, WriteDb;
    var sent, replied := Submitted(glob + "1", m, true), Responded(0, Reply(0, Some(200)), glob + "2", ok);
    SubmitFirst(user, glob, m, ["1", "2"]);
    var o := Step(Empty, user, glob, sent);
    assert o.inflight[0] == m;
    RunOfTwo(Empty, user, glob, sent, replied);
    AnsweredCounts(o, user, glob, 0, Reply(0, Some(200)), glob + "2");
    OneAnswered(o, user, glob, glob + "2");
  }

  lemma OneAnswered(o: Outbox, user: CString, glob: string, key: string)
    requires |o.inflight| == 1
    ensures Answered(o, user, glob, 0, Reply(0, Some(200)), key).inflight == []
  {
  }

  // `flush` is the number of requests in flight.
  predicate Counts(o: Outbox) {
    o.flush == |o.inflight|
  }

  predicate Waiting(rows: seq<Row>, glob: string) {
    Fetch(rows, glob, PENDING, None, true).Some?
  }

  // The steps that put the counter out: a submit; a flush with something in flight, or one whose resend is refused
  // with nothing in flight; and a reply to the last request that goes on to a resend that is refused.
  predicate Drifts(o: Outbox, user: CString, glob: string, e: Event)
    requires e.Responded? ==> e.i < |o.inflight|
  {
    match e
    case Submitted(_, _, ok) => ok
    case Flushed(ok) => |o.inflight| != if Waiting(o.rows, glob) && !ok then 1 else 0
    case Responded(i, r, key, ok) =>
      && !Provisional(r) && r.err == 0 && r.scode.Some? && o.flush == 1 && !ok
      && Waiting(Answered(o, user, glob, i, r, key).rows, glob)
    case Received(_, _, _) => false
  }

  // What a flush does to the counter.
  lemma FlushCounts(o: Outbox, user: CString, glob: string, submitted: set<string>, confirmed: set<string>, ok: bool)
    requires Good(o, user, glob, submitted, confirmed)
    ensures Flush(o, glob, ok).flush == (if Waiting(o.rows, glob) then 1 else 0)
    ensures |Flush(o, glob, ok).inflight| == |o.inflight| + (if Waiting(o.rows, glob) && ok then 1 else 0)
  {
    hide Good;
    FlushKeeps(o, user, glob, submitted, confirmed, ok);
    RefusedFlush(o, glob);
  }

  lemma RefusedFlush(o: Outbox, glob: string)
    ensures Flush(o, glob, false).inflight == o.inflight
  {
  }

  /** A counter that is right stays right exactly through the steps that do not drift. */
  lemma StepCounts(o: Outbox, user: CString, glob: string, submitted: set<string>, confirmed: set<string>, e: Event)
    requires Good(o, user, glob, submitted, confirmed) && Legal(o, user, glob, e) && Counts(o)
    ensures Counts(Step(o, user, glob, e)) <==> !Drifts(o, user, glob, e)
  {
    hide Good, Store.Fresh, Store.View, Idx, MessageIdx, Flush, WriteDb, Waiting, Answered;
    match e
    case Submitted(_, _, _) =>
    case Flushed(ok) => FlushCounts(o, user, glob, submitted, confirmed, ok);
    case Responded(i, r, key, ok) =>
      if !Provisional(r) {
        var p := Answered(o, user, glob, i, r, key);
        AnsweredKeeps(o, user, glob, submitted, confirmed, i, r, key);
        AnsweredCounts(o, user, glob, i, r, key);
        FlushCounts(p, user, glob, submitted,
                    if Delivered(r) then confirmed + {Idx(user, o.inflight[i])} else confirmed, ok);
      }
    case Received(_, _, _) =>
  }

  // The state after the first `n` events.
  ghost function AfterFirst(o: Outbox, user: CString, glob: string, events: seq<Event>, n: nat): Outbox
    requires LegalRun(o, user, glob, events) && n <= |events|
    decreases |events|
  {
    if n == 0 then o else AfterFirst(Step(o, user, glob, events[0]), user, glob, events[1..], n - 1)
  }

  ghost predicate DriftsAt(o: Outbox, user: CString, glob: string, events: seq<Event>, n: nat)
    requires LegalRun(o, user, glob, events) && n < |events|
    decreases |events|
  {
    if n == 0 then Drifts(o, user, glob, events[0])
    else DriftsAt(Step(o, user, glob, events[0]), user, glob, events[1..], n - 1)
  }

  // After `n` events the counter is right; the next one keeps it right exactly if it does not drift.
  lemma {:induction false} NextCounts(o: Outbox, user: CString, glob: string, submitted: set<string>,
                                      confirmed: set<string>, events: seq<Event>, n: nat)
    requires Good(o, user, glob, submitted, confirmed) && LegalRun(o, user, glob, events) && n < |events|
    requires Counts(AfterFirst(o, user, glob, events, n))
    ensures Counts(AfterFirst(o, user, glob, events, n + 1)) <==> !DriftsAt(o, user, glob, events, n)
    decreases n
  {
    hide Good, Drifts, Step, Counts, Noted, Confirms, Store.Fresh, Store.View;
    var p, rest := Step(o, user, glob, events[0]), events[1..];
    assert AfterFirst(o, user, glob, events, n + 1) == AfterFirst(p, user, glob, rest, n);
    if n == 0 {
      StepCounts(o, user, glob, submitted, confirmed, events[0]);
    } else {
      StepKeeps(o, user, glob, submitted, confirmed, events[0]);
      NextCounts(p, user, glob, Noted(submitted, user, events[0]), confirmed +
          Confirms(o, user, events[0]), rest, n - 1);
    }
  }

  lemma {:induction false} CountsUpTo(o: Outbox, user: CString, glob: string, submitted: set<string>,
                                      confirmed: set<string>, events: seq<Event>, n: nat)
    requires Good(o, user, glob, submitted, confirmed) && LegalRun(o, user, glob, events) && Counts(o)
    requires n <= |events| && forall k | 0 <= k < n :: !DriftsAt(o, user, glob, events, k)
    ensures Counts(AfterFirst(o, user, glob, events, n))
    decreases n
  {
    hide Good, Counts, DriftsAt, LegalRun;
    if n > 0 {
      CountsUpTo(o, user, glob, submitted, confirmed, events, n - 1);
      NextCounts(o, user, glob, submitted, confirmed, events, n - 1);
    }
  }

  ghost predicate AlwaysCounts(o: Outbox, user: CString, glob: string, events: seq<Event>)
    requires LegalRun(o, user, glob, events)
  {
    forall n | 0 <= n <= |events| :: Counts(AfterFirst(o, user, glob, events, n))
  }

  ghost predicate NeverDrifts(o: Outbox, user: CString, glob: string, events: seq<Event>)
    requires LegalRun(o, user, glob, events)
  {
    forall n | 0 <= n < |events| :: !DriftsAt(o, user, glob, events, n)
  }

  /** Over every run, the counter is right after every event exactly if no event drifts. */
  lemma RunCounts(o: Outbox, user: CString, glob: string, submitted: set<string>, confirmed: set<string>,
                  events: seq<Event>)
    requires Good(o, user, glob, submitted, confirmed) && LegalRun(o, user, glob, events) && Counts(o)
    ensures AlwaysCounts(o, user, glob, events) <==> NeverDrifts(o, user, glob, events)
  {
    hide Good, Counts, DriftsAt, LegalRun, AfterFirst;
    if NeverDrifts(o, user, glob, events) {
      forall n | 0 <= n <= |events| ensures Counts(AfterFirst(o, user, glob, events, n)) {
        CountsUpTo(o, user, glob, submitted, confirmed, events, n);
      }
    } else if AlwaysCounts(o, user, glob, events) {
      var n :| 0 <= n < |events| && DriftsAt(o, user, glob, events, n);
      assert Counts(AfterFirst(o, user, glob, events, n)) && Counts(AfterFirst(o, user, glob, events, n + 1));
      NextCounts(o, user, glob, submitted, confirmed, events, n);
      assert false;
    }
  }

  /**
   The counter with a refused submit, and two flushes: the first sends the message, the second sends it again and
   leaves two in flight under a counter of 1. A flush whose resend is refused leaves none.
   */
  lemma FlushDrifts(user: CString, glob: string, m: Msg)
    ensures var e := Submitted(glob + "1", m, false);
            && Legal(Empty, user, glob, e)
            && var o := Step(Empty, user, glob, e);
            var once := Step(o, user, glob, Flushed(true));
            var twice, refused := Step(once, user, glob, Flushed(true)), Step(o, user, glob, Flushed(false));
            && Counts(o) && Counts(once) && |once.inflight| == 1
            && twice.flush == 1 && |twice.inflight| == 2
            && refused.flush == 1 && refused.inflight == []
  {
    hide Good, Flush, Idx, Store.View, Store.Fresh, Store.AddState;
    var e := Submitted(glob + "1", m, false);
    SubmitFirst(user, glob, m, ["1", "2"]);
    EmptyOutboxIsGood(user, glob);
    assert Legal(Empty, user, glob, e);
    var o := Step(Empty, user, glob, e);
    StepKeeps(Empty, user, glob, {}, {}, e);
    var submitted := Noted({}, user, e);
    assert {} + Confirms(Empty, user, e) == {};
    SubmittedIsWaiting(user, glob, m, glob + "1");
    FlushCounts(o, user, glob, submitted, {}, true);
    FlushCounts(o, user, glob, submitted, {}, false);
    FlushKeeps(o, user, glob, submitted, {}, true);
    var once := Flush(o, glob, true);
    FlushCounts(once, user, glob, submitted, {}, true);
  }

  lemma SubmittedIsWaiting(user: CString, glob: string, m: Msg, key: string)
    requires Legal(Empty, user, glob, Submitted(key, m, false))
    ensures Waiting(Step(Empty, user, glob, Submitted(key, m, false)).rows, glob)
  {
    hide Store.Fetch, Idx, MsgBlob;
    var idx := Idx(user, m);
    LessIsIrreflexive(key);
    AddIsObsoleteThenInsert([], glob, key, idx, MsgBlob(m, idx), PENDING);
    var rows := WriteDb([], glob, key, idx, m, PENDING);
    assert Obsolete([], glob, key, idx) == [];
    assert rows == [Row(key, idx, MsgBlob(m, idx), PENDING)];
    assert rows[0] in rows && Matches(rows[0], glob, PENDING, None, true);
  }

  // ---------- Draining ----------

  // A 200 for each request in turn; each sends the next pending message. The second result is what was sent.
  function Rounds(o: Outbox, user: CString, glob: string, keys: seq<string>): (Outbox, seq<Msg>)
    decreases |keys|
  {
    if o.inflight == [] || keys == [] then (o, [])
    else
      var q := Response(o, user, glob, 0, Reply(0, Some(200)), keys[0], true);
      var (end, sent) := Rounds(q, user, glob, keys[1..]);
      (end, [o.inflight[0]] + sent)
  }

  // The request in flight is the first pending message; `flush` counts it.
  ghost predicate Draining(o: Outbox, user: CString, glob: string) {
    && o.flush == |o.inflight|
    && match Fetch(o.rows, glob, PENDING, None, true)
       case None => o.inflight == []
       case Some(r) => |o.inflight| == 1 && Idx(user, o.inflight[0]) == r.idx &&
                       MsgsParsed(r.blob) == [o.inflight[0]]
  }

  lemma FlushStartsDraining(o: Outbox, user: CString, glob: string, submitted: set<string>, confirmed: set<string>)
    requires Good(o, user, glob, submitted, confirmed) && o.inflight == []
    ensures Draining(Flush(o, glob, true), user, glob) && Flush(o, glob, true).rows == o.rows
  {
    hide Store.View, Store.Unique, Idx, Flush, PendingOk;
    FlushKeeps(o, user, glob, submitted, confirmed, true);
  }

  // Marking the first pending message as delivered leaves the other pending rows to page through.
  lemma DeliveredLeavesRest(rows: seq<Row>, glob: string, key: string, idx: CString, m: Msg, r: Row)
    requires Unique(rows, glob) && Fresh(rows, glob, key, idx)
    requires Fetch(rows, glob, PENDING, None, true) == Some(r) && r.idx == idx
    ensures var after := WriteDb(rows, glob, key, idx, m, SYNC);
            Pages(after, glob, PENDING, None, true) == Pages(rows, glob, PENDING, Some(idx), true)
  {
    hide Codec.MsgBlob, Store.Pages, Store.Unique, Store.Fetch;
    var after := WriteDb(rows, glob, key, idx, m, SYNC);
    var blob := MsgBlob(m, idx);
    AddIsObsoleteThenInsert(rows, glob, key, idx, blob, SYNC);
    assert after == Obsolete(rows, glob, key, idx) + [Row(key, idx, blob, SYNC)];
    forall c | c in rows && Matches(c, glob, PENDING, Some(idx), true) ensures c in after {
      LessIsIrreflexive(idx);
      var i :| 0 <= i < |rows| && rows[i] == c;
      assert after[i] == c;
    }
    forall c | c in after && Matches(c, glob, PENDING, None, true)
      ensures c in rows && Matches(c, glob, PENDING, Some(idx), true)
    {
      var i :| 0 <= i < |after| && after[i] == c;
      assert i < |rows| && after[i] == Obsoleted(rows[i], glob, key, idx) && rows[i] in rows;
      FirstIsLeast(rows, glob, r, c);
      LessIsTotal(idx, c.idx);
    }
    PagesAgree(rows, Some(idx), after, None, glob, PENDING, true);
  }

  lemma FirstIsLeast(rows: seq<Row>, glob: string, r: Row, c: Row)
    requires Fetch(rows, glob, PENDING, None, true) == Some(r)
    requires c in rows && Matches(c, glob, PENDING, None, true)
    ensures !Less(c.idx, r.idx)
  {
    var i :| 0 <= i < |rows| && rows[i] == c;
  }

  // A 200 to the request in flight marks its message as delivered and sends the next one.
  lemma RoundAdvances(o: Outbox, user: CString, glob: string, submitted: set<string>, confirmed: set<string>,
      keys: seq<string>)
    requires Good(o, user, glob, submitted, confirmed) && Draining(o, user, glob) && o.inflight != []
    requires KeysAhead(o.rows, glob, keys) && keys != []
    ensures var idx: string := Idx(user, o.inflight[0]);
            var q := Response(o, user, glob, 0, Reply(0, Some(200)), keys[0], true);
            && Good(q, user, glob, submitted + {idx}, confirmed + {idx}) && Draining(q, user, glob)
            && KeysAhead(q.rows, glob, keys[1..]) && NeverBack(o.rows, q.rows, glob)
            && Pages(q.rows, glob, PENDING, None, true) == Pages(o.rows, glob, PENDING, Some(idx), true)
  {
    hide Store.View, Store.Unique, Store.Fetch, Store.AddState, Codec.MsgBlob, Idx, Flush, PendingOk, NeverBack,
        Store.Pages,
      Store.KeysAhead;
    var r := Fetch(o.rows, glob, PENDING, None, true).value;
    var m, idx := o.inflight[0], Idx(user, o.inflight[0]);
    var p := Outbox(WriteDb(o.rows, glob, keys[0], idx, m, SYNC), 0, []);
    KeysStayAhead(o.rows, glob, keys, idx, MsgBlob(m, idx), SYNC);
    DeliveredLeavesRest(o.rows, glob, keys[0], idx, m, r);
    WriteKeeps(o, user, glob, submitted, confirmed, keys[0], idx, m, SYNC);
    FlushStartsDraining(p, user, glob, submitted + {idx}, confirmed + {idx});
    FlushKeeps(p, user, glob, submitted + {idx}, confirmed + {idx}, true);
    assert o.inflight[..0] + o.inflight[1..] == [];
    assert Response(o, user, glob, 0, Reply(0, Some(200)), keys[0], true) == Flush(p, glob, true);
  }

  /** With every response a 200, each pending message is sent once, in order of index, until none is left. */
  lemma {:induction false} RoundsDrain(o: Outbox, user: CString, glob: string, submitted: set<string>,
                                       confirmed: set<string>, keys: seq<string>)
    requires Good(o, user, glob, submitted, confirmed) && Draining(o, user, glob)
    requires KeysAhead(o.rows, glob, keys) && |keys| >= |Pages(o.rows, glob, PENDING, None, true)|
    ensures var (end, sent) := Rounds(o, user, glob, keys);
            var pages := Pages(o.rows, glob, PENDING, None, true);
            && |sent| == |pages| && (forall k | 0 <= k < |sent| ::
                  Idx(user, sent[k]) == pages[k].idx && MsgsParsed(pages[k].blob) == [sent[k]])
            && end.inflight == [] && end.flush == 0 && Fetch(end.rows, glob, PENDING, None, true) == None
    decreases |keys|
  {
    hide Store.View, Store.Unique, Store.Fetch, Response, Idx, PendingOk, Good, Store.KeysAhead, NeverBack;
    match Fetch(o.rows, glob, PENDING, None, true)
    case None =>
    case Some(r) =>
      var idx: string := Idx(user, o.inflight[0]);
      var q := Response(o, user, glob, 0, Reply(0, Some(200)), keys[0], true);
      RoundAdvances(o, user, glob, submitted, confirmed, keys);
      RoundsDrain(q, user, glob, submitted + {idx}, confirmed + {idx}, keys[1..]);
  }

  /** Draining an idle outbox: `flush` and the requests in flight stay in step, and paging says what is sent. */
  lemma FlushDrains(o: Outbox, user: CString, glob: string, submitted: set<string>, confirmed: set<string>,
      keys: seq<string>)
    requires Good(o, user, glob, submitted, confirmed) && o.inflight == []
    requires KeysAhead(o.rows, glob, keys) && |keys| >= |Pages(o.rows, glob, PENDING, None, true)|
    ensures var start := Flush(o, glob, true);
            var (end, sent) := Rounds(start, user, glob, keys);
            var pages := Pages(o.rows, glob, PENDING, None, true);
            && start.flush == |start.inflight| <= 1
            && |sent| == |pages| && (forall k | 0 <= k < |sent| ::
                  Idx(user, sent[k]) == pages[k].idx && MsgsParsed(pages[k].blob) == [sent[k]])
            && InOrder(pages, true)
            && end.inflight == [] && end.flush == 0 && Fetch(end.rows, glob, PENDING, None, true) == None
  {
    hide Store.View, Store.Unique, Store.Fetch, Idx, Flush, PendingOk, Rounds, Store.Pages;
    FlushStartsDraining(o, user, glob, submitted, confirmed);
    FlushKeeps(o, user, glob, submitted, confirmed, true);
    RoundsDrain(Flush(o, glob, true), user, glob, submitted, confirmed, keys);
    PagesAreInOrder(o.rows, glob, PENDING, None, true);
  }

  /** And each message it sends is the one submitted under its index. */
  lemma FlushSendsSubmitted(o: Outbox, user: CString, glob: string, submitted: set<string>, confirmed: set<string>,
                            n: Notes, keys: seq<string>)
    requires Good(o, user, glob, submitted, confirmed) && o.inflight == []
    requires Kept(View(o.rows, glob), o.inflight, user, n)
    requires KeysAhead(o.rows, glob, keys) && |keys| >= |Pages(o.rows, glob, PENDING, None, true)|
    ensures var sent := Rounds(Flush(o, glob, true), user, glob, keys).1;
            forall k | 0 <= k < |sent| ::
              Idx(user, sent[k]) in n.sent && Same(sent[k], n.sent[Idx(user, sent[k])])
  {
    hide Store.View, Store.Fetch, Idx, Flush, PendingOk, Rounds, Store.Pages, Store.Unique, MsgsParsed, Store.KeysAhead;
    FlushDrains(o, user, glob, submitted, confirmed, keys);
    var sent, pages := Rounds(Flush(o, glob, true), user, glob, keys).1, Pages(o.rows, glob, PENDING, None, true);
    forall k | 0 <= k < |sent|
      ensures Idx(user, sent[k]) in n.sent && Same(sent[k], n.sent[Idx(user, sent[k])])
    {
      assert pages[k] in pages;
      UniqueRowIsInView(o.rows, glob, pages[k]);
    }
  }

  // ---------- Replies and indexes as they are on the wire ----------

  /** A code below 200 changes nothing; any other end of a request takes it off, counts it, and may be a delivery. */
  lemma RepliesBySort(o: Outbox, user: CString, glob: string, i: nat, r: Reply, key: string, ok: bool)
    requires i < |o.inflight|
    ensures r.scode.Some? && r.scode.value < 200 ==> Response(o, user, glob, i, r, key, ok) == o
    ensures r.scode.None? || r.scode.value >= 200 ==>
              var p := Answered(o, user, glob, i, r, key);
              && p.inflight == o.inflight[..i] + o.inflight[i + 1..] && p.flush == o.flush - 1
              && (r != Reply(0, Some(200)) ==> p.rows == o.rows)
              && (Response(o, user, glob, i, r, key, ok) != p ==> r.err == 0 && r.scode.Some? && o.flush == 1)
  {
    hide WriteDb, Flush;
  }

  // A number below ten to the `w`, in `w` digits.
  function Fixed(n: nat, w: nat): (s: string)
    ensures |s| == w
  {
    if w == 0 then "" else Fixed(n / 10, w - 1) + ['0' + (n % 10) as char]
  }

  function Power(w: nat): (p: nat)
    ensures p >= 1
  {
    if w == 0 then 1 else 10 * Power(w - 1)
  }

  function Zeros(w: nat): (s: string)
    ensures |s| == w
  {
    if w == 0 then "" else "0" + Zeros(w - 1)
  }

  lemma {:induction false} FixedIsPadded(n: nat, w: nat)
    requires n < Power(w) && w > 0
    ensures |Decimal(n)| <= w && Fixed(n, w) == Zeros(w - |Decimal(n)|) + Decimal(n)
  {
    if n < 10 {
      SmallIsPadded(n, w);
    } else {
      assert w > 1;
      FixedIsPadded(n / 10, w - 1);
    }
  }

  lemma {:induction false} SmallIsPadded(n: nat, w: nat)
    requires n < 10 && w > 0
    ensures Fixed(n, w) == Zeros(w - 1) + Decimal(n)
  {
    ZeroIsZeros(w - 1);
    assert n / 10 == 0;
  }

  lemma {:induction false} ZeroIsZeros(w: nat)
    ensures Fixed(0, w) == Zeros(w)
  {
    if w > 0 {
      ZeroIsZeros(w - 1);
      ZerosSnoc(w - 1);
    }
  }

  lemma {:induction false} ZerosSnoc(w: nat)
    ensures Zeros(w) + "0" == Zeros(w + 1)
  {
    if w > 0 {
      ZerosSnoc(w - 1);
      assert Zeros(w) + "0" == "0" + (Zeros(w - 1) + "0");
    }
  }

  lemma {:induction false} PadAddsZeros(s: CString)
    requires |s| <= 6
    ensures Pad6(s) == Zeros(6 - |s|) + s
    decreases 6 - |s|
  {
    if |s| < 6 {
      var t: CString := "0" + s;
      PadAddsZeros(t);
      ZerosSnoc(5 - |s|);
      assert Zeros(5 - |s|) + ("0" + s) == Zeros(5 - |s|) + "0" + s;
    }
  }

  lemma {:induction false} FixedInOrder(m: nat, n: nat, w: nat)
    requires m < n < Power(w)
    ensures Less(Fixed(m, w), Fixed(n, w))
  {
    var c, d := ['0' + (m % 10) as char], ['0' + (n % 10) as char];
    if m / 10 < n / 10 {
      FixedInOrder(m / 10, n / 10, w - 1);
      LessOfSameLength(Fixed(m / 10, w - 1), Fixed(n / 10, w - 1), c, d);
    } else {
      LessAfterPrefix(Fixed(m / 10, w - 1), c, d);
    }
  }

  lemma PaddedInOrder(m: nat, n: nat)
    requires m < n < 1000000
    ensures |Pad6(Decimal(m))| == |Pad6(Decimal(n))| == 6 && Less(Pad6(Decimal(m)), Pad6(Decimal(n)))
  {
    hide Fixed, Zeros, Less;
    SixDigits();
    FixedIsPadded(m, 6);
    FixedIsPadded(n, 6);
    PadAddsZeros(Decimal(m));
    PadAddsZeros(Decimal(n));
    FixedInOrder(m, n, 6);
  }

  lemma SixDigits()
    ensures Power(6) == 1000000
  {
    assert Power(3) == 1000;
  }

  /** For seconds of one length, indexes are in order as text when their times are, whatever the addresses. */
  lemma IndexesInOrder(s: nat, u: nat, from: CString, to: CString, t: nat, v: nat, from': CString, to': CString)
    requires |Decimal(s)| == |Decimal(t)| && u < 1000000 && v < 1000000 && (s < t || (s == t && u < v))
    ensures Less(MessageIdx(s, u, from, to), MessageIdx(t, v, from', to'))
  {
    hide Less, Decimal, Pad6;
    var x, y := "@" + from + "->" + to, "@" + from' + "->" + to';
    var a, b := Pad6(Decimal(u)) + x, Pad6(Decimal(v)) + y;
    assert MessageIdx(s, u, from, to) == Decimal(s) + ("." + a);
    assert MessageIdx(t, v, from', to') == Decimal(t) + ("." + b);
    if s < t {
      DecimalsInOrder(s, t);
      LessOfSameLength(Decimal(s), Decimal(t), "." + a, "." + b);
    } else {
      PaddedInOrder(u, v);
      LessOfSameLength(Pad6(Decimal(u)), Pad6(Decimal(v)), x, y);
      LessAfterPrefix(".", a, b);
      LessAfterPrefix(Decimal(s), "." + a, "." + b);
    }
  }

  /** An index, written out. */
  lemma AnIndex()
    ensures MessageIdx(7, 42, "a", "b") == "7.000042@a->b"
  {
    assert Decimal(7) == "7" && Decimal(4) == "4" && Decimal(42) == Decimal(4) + "2";
    PadAddsZeros("42");
    assert Zeros(2) == "00" && Zeros(4) == "0000";
    assert Print(7) == "7" && Print(42) == "42" && Pad6("42") == "000042";
    assert MessageIdx(7, 42, "a", "b") == "7" + "." + "000042" + "@" + "a" + "->" + "b";
  }
}

/** The call history: a write-through cache of the row new events go to, and a cursor over the rows. */
module History {
  import opened Text
  import opened Codec
  import opened Store

  // `top` is the list of the row `topIdx`; `iter` is the index of the row fetched last.
  datatype Hist = Hist(rows: seq<Row>, iter: Option<string>, top: Option<seq<HistEl>>, topIdx: Option<string>)

  // What a fetch gives its caller.
  datatype Bulk = Nothing | Bulk(idx: Option<string>, list: seq<HistEl>)

  // ---------- Sorting ----------

  predicate Descending(list: seq<HistEl>) {
    forall i, j | 0 <= i < j < |list| :: list[i].time >= list[j].time
  }

  function Insert(e: HistEl, list: seq<HistEl>): (r: seq<HistEl>)
    requires Descending(list)
    ensures Descending(r) && r != [] && (r[0] == e || (list != [] && r[0] == list[0]))
    ensures multiset(r) == multiset(list) + multiset{e}
  {
    if list == [] then [e]
    else if e.time > list[0].time then [e] + list
    else
      assert list == [list[0]] + list[1..];
      var rest := Insert(e, list[1..]);
      assert rest[0].time <= list[0].time;
      PutInFront(list[0], rest);
      [list[0]] + rest
  }

  lemma PutInFront(e: HistEl, rest: seq<HistEl>)
    requires Descending(rest) && rest != [] && rest[0].time <= e.time
    ensures Descending([e] + rest)
    ensures multiset([e] + rest) == multiset(rest) + multiset{e}
  {
    var list := [e] + rest;
    forall i, j | 0 <= i < j < |list| ensures list[i].time >= list[j].time {
      assert list[j] == rest[j - 1];
    }
  }

  // `list_sort` with the handler `hel1->time > hel2->time`.
  function Sorted(list: seq<HistEl>): (r: seq<HistEl>)
    ensures Descending(r) && multiset(r) == multiset(list)
  {
    if list == [] then []
    else
      assert list == [list[0]] + list[1..];
      Insert(list[0], Sorted(list[1..]))
  }

  // ---------- The operations on values ----------

  // `get_idx` leaves the index alone when the list is empty.
  function TailKey(list: seq<HistEl>, idx: Option<string>): Option<string> {
    if list == [] then idx else list[|list| - 1].key
  }

  function Reset(h: Hist): Hist {
    h.(top := None, topIdx := None, iter := None)
  }

  function Next(h: Hist, glob: string, idx: Option<string>): (Hist, Bulk) {
    match Fetch(h.rows, glob, 1, h.iter, false)
    case None => (h, Nothing)
    case Some(r) =>
      var list := Sorted(HistParsed(r.blob));
      var at := TailKey(list, idx);
      (h.(iter := at, top := if h.top == None then Some(list) else h.top,
          topIdx := if h.top == None then at else h.topIdx), Bulk(at, list))
  }

  // The same from any start; when there is nothing, the cursor stays where it was.
  function FetchFrom(h: Hist, glob: string, start: Option<string>, idx: Option<string>): (Hist, Bulk) {
    var (g, bulk) := Next(h.(iter := start), glob, idx);
    (if bulk == Nothing then h else g, bulk)
  }

  predicate CanAdd(h: Hist, e: HistEl) {
    Writable(e) && (h.top.Some? ==> h.topIdx.Some? && forall x | x in h.top.value :: Writable(x))
  }

  function AddList(h: Hist, e: HistEl): seq<HistEl> {
    (if h.top.Some? then h.top.value else []) + [e]
  }

  function AddIdx(h: Hist, e: HistEl): string
    requires CanAdd(h, e)
  {
    if h.top.Some? then h.topIdx.value else e.key.value
  }

  function Add(h: Hist, glob: string, key: string, e: HistEl): Hist
    requires CanAdd(h, e)
  {
    var list, idx := AddList(h, e), AddIdx(h, e);
    Hist(AddState(h.rows, glob, key, idx, HistBlob(list), 1), h.iter, Some(list), Some(idx))
  }

  // ---------- The object ----------

  class HistoryLog {
    const store: StoreClient
    var iter: Option<string>
    var top: Option<seq<HistEl>>
    var topIdx: Option<string>

    ghost function State(): Hist
      reads this, store.db
    {
      Hist(store.db.rows, iter, top, topIdx)
    }

    constructor (store: StoreClient)
      ensures this.store == store && State() == Hist(store.db.rows, None, None, None)
    {
      this.store := store;
      iter, top, topIdx := None, None, None;
    }

    method HistoryReset()
      modifies this
      ensures State() == Reset(old(State()))
    {
      top := None;
      topIdx := None;
      iter := None;
    }

    method HistoryFetch(start: Option<string>, idx: Option<string>) returns (bulk: Bulk)
      requires !store.order
      modifies this
      ensures (State(), bulk) == FetchFrom(old(State()), store.keyGlob, start, idx)
    {
      var fetched := store.StoreFetchState(start, HelParse, 1);
      if fetched == None {
        return Nothing;
      }
      var list := Sorted(fetched.value);
      var at := TailKey(list, idx);
      iter := at;
      if top == None {
        top := Some(list);
        topIdx := at;
      }
      return Bulk(at, list);
    }

    method HistoryNext(idx: Option<string>) returns (bulk: Bulk)
      requires !store.order
      modifies this
      ensures (State(), bulk) == Next(old(State()), store.keyGlob, idx)
    {
      bulk := HistoryFetch(iter, idx);
    }

    /** `key` is what `store_key` returns now. */
    method HistoryAdd(e: HistEl, key: string)
      requires CanAdd(State(), e)
      modifies this, store.db
      ensures State() == Add(old(State()), store.keyGlob, key, e)
    {
      var list, idx;
      if top.Some? {
        list, idx := top.value, topIdx.value;
      } else {
        list, idx := [], e.key.value;
      }
      list := list + [e];
      var blob := WriteHistory(list);
      store.StoreAddState(key, idx, blob, 1);
      if top == None {
        topIdx := Some(idx);
      }
      top := Some(list);        // the list is shared, so `top` sees what was appended
    }
  }

  // ---------- Conservation ----------

  // The events of the current row `k`.
  function EventsAt(m: map<string, (int, Blob)>, k: string): seq<HistEl>
    requires k in m
  {
    HistParsed(m[k].1)
  }

  ghost predicate Earliest(list: seq<HistEl>, x: HistEl) {
    x in list && forall y | y in list && y != x :: x.time < y.time
  }

  // A current row holds events that were added, each once, and is indexed by the key of its earliest event.
  ghost predicate RowOk(m: map<string, (int, Blob)>, k: string, added: seq<HistEl>)
    requires k in m
  {
    && m[k].0 == 1
    && (forall e | e in EventsAt(m, k) :: e in added && multiset(EventsAt(m, k))[e] == 1)
    && (exists x :: Earliest(EventsAt(m, k), x) && x.key == Some(k))
  }

  ghost predicate Conserved(m: map<string, (int, Blob)>, added: seq<HistEl>) {
    && (forall k | k in m :: RowOk(m, k, added))
    && (forall k, l, e | k in m && l in m && e in EventsAt(m, k) && e in EventsAt(m, l) :: k == l)
    && (forall e | e in added :: exists k :: k in m && e in EventsAt(m, k))
  }

  ghost predicate CacheOk(m: map<string, (int, Blob)>, h: Hist) {
    if h.top == None then h.topIdx == None
    else h.topIdx.Some? && h.topIdx.value in m && multiset(h.top.value) == multiset(EventsAt(m, h.topIdx.value))
  }

  // `added` holds every event added so far, oldest first.
  ghost predicate Good(h: Hist, glob: string, added: seq<HistEl>) {
    && Unique(h.rows, glob)
    && Conserved(View(h.rows, glob), added)
    && CacheOk(View(h.rows, glob), h)
    && (forall e | e in added :: Writable(e) && Solid(e))
  }

  // A call key of its own, and a fresh store key.
  predicate CanAppend(h: Hist, glob: string, added: seq<HistEl>, key: string, e: HistEl) {
    && Writable(e) && Solid(e)
    && (forall x | x in added :: x.key != e.key)
    && CanAdd(h, e) && Fresh(h.rows, glob, key, AddIdx(h, e))
  }

  // The event starts a row, or is later than some event, so later than the earliest, of the row it joins.
  predicate Later(h: Hist, e: HistEl) {
    h.top.None? || exists x | x in h.top.value :: x.time < e.time
  }

  predicate CanHappen(h: Hist, glob: string, added: seq<HistEl>, key: string, e: HistEl) {
    CanAppend(h, glob, added, key, e) && Later(h, e)
  }

  lemma TopEvents(h: Hist, glob: string, added: seq<HistEl>, x: HistEl)
    requires Good(h, glob, added) && h.top.Some? && x in h.top.value
    ensures x in added && x in EventsAt(View(h.rows, glob), h.topIdx.value)
  {
    assert x in multiset(h.top.value);
    assert RowOk(View(h.rows, glob), h.topIdx.value, added);
  }

  lemma AddedListReadsBack(h: Hist, glob: string, added: seq<HistEl>, e: HistEl)
    requires Good(h, glob, added) && Writable(e) && Solid(e)
    ensures CanAdd(h, e)
    ensures forall x | x in AddList(h, e) :: Writable(x) && Solid(x)
    ensures HistParsed(HistBlob(AddList(h, e))) == AddList(h, e)
  {
    hide Codec.HistBlob, Codec.HistParsed;
    forall x | x in AddList(h, e) ensures Writable(x) && Solid(x) {
      if x != e {
        TopEvents(h, glob, added, x);
      }
    }
    assert h.top.Some? ==> forall x | x in h.top.value :: x in AddList(h, e);
    HistRoundTripIsExact(AddList(h, e));
  }

  // Appending a later event to a row that is in order.
  lemma AppendKeepsRow(before: seq<HistEl>, list: seq<HistEl>, e: HistEl, x: HistEl)
    requires multiset(list) == multiset(before) && Earliest(before, x) && x.time < e.time && e !in before
    requires forall y | y in before :: multiset(before)[y] == 1
    ensures Earliest(list + [e], x)
    ensures forall y | y in list + [e] :: (y == e || y in before) && multiset(list + [e])[y] == 1
    ensures forall y | y in before :: y in list + [e]
  {
    assert x in multiset(before) && x in multiset(list);
    forall y | y in list + [e] ensures (y == e || y in before) && multiset(list + [e])[y] == 1 {
      if y in list {
        assert y in multiset(list) && y in multiset(before);
      }
      if y == e {
        assert e !in before && e !in multiset(before);
      }
    }
    forall y | y in before ensures y in list + [e] {
      assert y in multiset(before) && y in multiset(list);
    }
  }

  // The rows an update leaves alone.
  lemma OtherRowsStay(m: map<string, (int, Blob)>, added: seq<HistEl>, e: HistEl, k: string, v: (int, Blob), l: string)
    requires Conserved(m, added) && l in m && l != k
    ensures var n := m[k := v];
            l in n && EventsAt(n, l) == EventsAt(m, l) && RowOk(n, l, added + [e])
  {
    hide Codec.HistParsed;
    assert RowOk(m, l, added);
  }

  // One row changes, and `e` is the only event it gains.
  lemma OneRowGains(m: map<string, (int, Blob)>, added: seq<HistEl>, e: HistEl, k: string, v: (int, Blob))
    requires Conserved(m, added) && e !in added
    requires var n := m[k := v];
             && RowOk(n, k, added + [e]) && e in EventsAt(n, k)
             && (k in m ==> forall y :: y in EventsAt(n, k) && y != e <==> y in EventsAt(m, k))
             && (k !in m ==> EventsAt(n, k) == [e])
    ensures Conserved(m[k := v], added + [e])
  {
    hide Codec.HistParsed, RowOk;
    var n := m[k := v];
    forall l | l in n ensures RowOk(n, l, added + [e]) {
      if l != k {
        OtherRowsStay(m, added, e, k, v, l);
      }
    }
    forall l, o, y | l in n && o in n && y in EventsAt(n, l) && y in EventsAt(n, o) ensures l == o {
      RowsStayApart(m, added, e, k, v, l, o, y);
    }
    forall y | y in added + [e] ensures exists l :: l in n && y in EventsAt(n, l) {
      if y == e {
        assert k in n;
      } else {
        var l :| l in m && y in EventsAt(m, l);
        assert l in n && y in EventsAt(n, l);
      }
    }
  }

  lemma RowsStayApart(m: map<string, (int, Blob)>, added: seq<HistEl>, e: HistEl, k: string, v: (int, Blob),
                      l: string, o: string, y: HistEl)
    requires Conserved(m, added) && e !in added
    requires var n := m[k := v];
             && (k in m ==> forall y :: y in EventsAt(n, k) && y != e <==> y in EventsAt(m, k))
             && (k !in m ==> EventsAt(n, k) == [e])
             && l in n && o in n && y in EventsAt(n, l) && y in EventsAt(n, o)
    ensures l == o
  {
    hide Codec.HistParsed;
    if l != k {
      assert RowOk(m, l, added);
    }
    if o != k {
      assert RowOk(m, o, added);
    }
  }

  lemma AddToNewRow(m: map<string, (int, Blob)>, added: seq<HistEl>, e: HistEl, blob: Blob)
    requires Conserved(m, added) && e.key.Some? && HistParsed(blob) == [e]
    requires forall x | x in added :: x.key != e.key
    ensures Conserved(m[e.key.value := (1, blob)], added + [e])
  {
    hide Codec.HistParsed;
    var k := e.key.value;
    assert k in m ==> RowOk(m, k, added);
    assert k !in m;
    assert EventsAt(m[k := (1, blob)], k) == [e] && Earliest([e], e) && multiset([e])[e] == 1;
    OneRowGains(m, added, e, k, (1, blob));
  }

  lemma AddToRow(m: map<string, (int, Blob)>, added: seq<HistEl>, e: HistEl, k: string, list: seq<HistEl>, blob: Blob)
    requires Conserved(m, added) && k in m && multiset(list) == multiset(EventsAt(m, k))
        && HistParsed(blob) == list + [e]
    requires (forall x | x in added :: x.key != e.key) && exists y | y in list :: y.time < e.time
    ensures Conserved(m[k := (1, blob)], added + [e])
  {
    hide Codec.HistParsed;
    var n := m[k := (1, blob)];
    assert RowOk(m, k, added);
    var x :| Earliest(EventsAt(m, k), x) && x.key == Some(k);
    var y :| y in list && y.time < e.time;
    assert y in multiset(list) && y in multiset(EventsAt(m, k)) && y in EventsAt(m, k);
    AppendKeepsRow(EventsAt(m, k), list, e, x);
    assert EventsAt(n, k) == list + [e] && e !in added;
    assert RowOk(n, k, added + [e]);
    OneRowGains(m, added, e, k, (1, blob));
  }

  /** An added event goes into exactly one current row, and takes no other event out of its row. */
  lemma AddKeeps(h: Hist, glob: string, added: seq<HistEl>, key: string, e: HistEl)
    requires Good(h, glob, added) && CanHappen(h, glob, added, key, e)
    ensures Good(Add(h, glob, key, e), glob, added + [e])
  {
    hide Codec.HistBlob, Codec.HistParsed, Store.AddState, Store.View, Store.Unique;
    var list, idx := AddList(h, e), AddIdx(h, e);
    AddedListReadsBack(h, glob, added, e);
    AddUpdatesView(h.rows, glob, key, idx, HistBlob(list), 1);
    AddKeepsUniqueIffFresh(h.rows, glob, key, idx, HistBlob(list), 1);
    if h.top.Some? {
      AddToRow(View(h.rows, glob), added, e, idx, h.top.value, HistBlob(list));
    } else {
      assert list == [e];
      AddToNewRow(View(h.rows, glob), added, e, HistBlob(list));
    }
  }

  // A row that an event no later than all of it has joined is not indexed by its earliest event.
  lemma EarlierBreaksRow(m: map<string, (int, Blob)>, added: seq<HistEl>, e: HistEl, k: string,
      list: seq<HistEl>, blob: Blob)
    requires Conserved(m, added) && k in m && multiset(list) == multiset(EventsAt(m, k))
        && HistParsed(blob) == list + [e]
    requires (forall x | x in added :: x.key != e.key) && forall y | y in list :: e.time <= y.time
    ensures !RowOk(m[k := (1, blob)], k, added + [e])
  {
    hide Codec.HistParsed;
    var n := m[k := (1, blob)];
    assert RowOk(m, k, added);
    var x :| Earliest(EventsAt(m, k), x) && x.key == Some(k);
    assert x in added;
    assert EventsAt(n, k) == list + [e] && e in list + [e];
    forall z | Earliest(EventsAt(n, k), z) ensures z.key != Some(k) {
      assert z in list ==> e.time <= z.time;
    }
  }

  /**
   For any times: an add conserves the history exactly if the event is later than the earliest of the row it
   joins.
   */
  lemma AddKeepsExactly(h: Hist, glob: string, added: seq<HistEl>, key: string, e: HistEl)
    requires Good(h, glob, added) && CanAppend(h, glob, added, key, e)
    ensures Good(Add(h, glob, key, e), glob, added + [e]) <==> Later(h, e)
    ensures Conserved(View(Add(h, glob, key, e).rows, glob), added + [e]) <==> Later(h, e)
  {
    hide Codec.HistBlob, Codec.HistParsed, Store.AddState, Store.View, Store.Unique;
    if Later(h, e) {
      AddKeeps(h, glob, added, key, e);
    } else {
      var list, idx := AddList(h, e), AddIdx(h, e);
      AddedListReadsBack(h, glob, added, e);
      AddUpdatesView(h.rows, glob, key, idx, HistBlob(list), 1);
      EarlierBreaksRow(View(h.rows, glob), added, e, idx, h.top.value, HistBlob(list));
    }
  }

  lemma SortedEndsWithEarliest(list: seq<HistEl>, x: HistEl)
    requires Earliest(list, x)
    ensures Sorted(list) != [] && Sorted(list)[|Sorted(list)| - 1] == x
  {
    hide Sorted;
    var r := Sorted(list);
    assert x in multiset(list) && x in multiset(r) && x in r;
    var last := r[|r| - 1];
    assert last in r && last in multiset(r) && last in multiset(list);
    var i :| 0 <= i < |r| && r[i] == x;
    assert last.time <= x.time;
  }

  /**
   Such a row is reported under the key of the earlier event, which is not its index: the next add starts it
   again.
   */
  lemma EarlierEventMisleads(h: Hist, glob: string, added: seq<HistEl>, key: string, e: HistEl, idx: Option<string>)
    requires Good(h, glob, added) && CanAppend(h, glob, added, key, e)
    requires h.top.Some? && forall x | x in h.top.value :: e.time < x.time
    ensures TailKey(Sorted(HistParsed(HistBlob(AddList(h, e)))), idx) == e.key != Some(AddIdx(h, e))
  {
    hide Codec.HistBlob, Codec.HistParsed, Store.View, Store.Unique, Sorted;
    AddedListReadsBack(h, glob, added, e);
    SortedEndsWithEarliest(AddList(h, e), e);
    var m := View(h.rows, glob);
    assert RowOk(m, AddIdx(h, e), added);
    var x :| Earliest(EventsAt(m, AddIdx(h, e)), x) && x.key == Some(AddIdx(h, e));
    assert x in added;
  }

  // The index a fetch reports is the index of the row it read.
  lemma FetchedKeyIsIdx(h: Hist, glob: string, added: seq<HistEl>, r: Row)
    requires Good(h, glob, added) && r in h.rows && Owned(glob, r.key) && r.curnt == 1
    ensures var list := Sorted(HistParsed(r.blob));
            list != [] && list[|list| - 1].key == Some(r.idx)
    ensures r.idx in View(h.rows, glob) && View(h.rows, glob)[r.idx] == (1, r.blob)
  {
    hide Codec.HistParsed, Store.View, Store.Unique, Sorted;
    UniqueRowIsInView(h.rows, glob, r);
    var m := View(h.rows, glob);
    assert RowOk(m, r.idx, added);
    var x :| Earliest(EventsAt(m, r.idx), x) && x.key == Some(r.idx);
    SortedEndsWithEarliest(EventsAt(m, r.idx), x);
  }

  lemma NextKeeps(h: Hist, glob: string, added: seq<HistEl>, idx: Option<string>)
    requires Good(h, glob, added)
    ensures Good(Next(h, glob, idx).0, glob, added)
  {
    hide Codec.HistParsed, Store.View, Store.Unique, Conserved, Store.Fetch;
    match Fetch(h.rows, glob, 1, h.iter, false)
    case None =>
    case Some(r) => FetchedKeyIsIdx(h, glob, added, r);
  }

  // ---------- Runs ----------

  datatype Event = Added(e: HistEl, key: string) | Fetched(idx: Option<string>) | Forgotten

  predicate Legal(h: Hist, glob: string, added: seq<HistEl>, ev: Event) {
    ev.Added? ==> CanHappen(h, glob, added, ev.key, ev.e)
  }

  function Step(h: Hist, glob: string, ev: Event): Hist
    requires ev.Added? ==> CanAdd(h, ev.e)
  {
    match ev
    case Added(e, key) => Add(h, glob, key, e)
    case Fetched(idx) => Next(h, glob, idx).0
    case Forgotten => Reset(h)
  }

  function Noted(added: seq<HistEl>, ev: Event): seq<HistEl> {
    if ev.Added? then added + [ev.e] else added
  }

  ghost predicate LegalRun(h: Hist, glob: string, added: seq<HistEl>, events: seq<Event>)
    decreases |events|
  {
    events == [] ||
    (Legal(h, glob, added, events[0]) &&
     LegalRun(Step(h, glob, events[0]), glob, Noted(added, events[0]), events[1..]))
  }

  ghost function After(h: Hist, glob: string, added: seq<HistEl>, events: seq<Event>): (Hist, seq<HistEl>)
    requires LegalRun(h, glob, added, events)
    decreases |events|
  {
    if events == [] then (h, added)
    else After(Step(h, glob, events[0]), glob, Noted(added, events[0]), events[1..])
  }

  /**
   Conservation over every run of adds, fetches and resets: each added event is in exactly one current
   row, each row is indexed by its earliest event, and the cached list is a permutation of its row.
   */
  lemma {:induction false} EventsAreConserved(h: Hist, glob: string, added: seq<HistEl>, events: seq<Event>)
    requires Good(h, glob, added) && LegalRun(h, glob, added, events)
    ensures var (g, all) := After(h, glob, added, events);
            Good(g, glob, all) && Conserved(View(g.rows, glob), all) && CacheOk(View(g.rows, glob), g)
    decreases |events|
  {
    hide Codec.HistParsed, Store.View, Store.Unique, Conserved, Store.Fetch, Store.Fresh, Add, Next;
    if events != [] {
      match events[0] {
        case Added(e, key) => AddKeeps(h, glob, added, key, e);
        case Fetched(idx) => NextKeeps(h, glob, added, idx);
        case Forgotten =>
      }
      EventsAreConserved(Step(h, glob, events[0]), glob, Noted(added, events[0]), events[1..]);
    }
  }

  const Empty := Hist([], None, None, None)

  lemma EmptyStoreIsGood(glob: string)
    ensures Good(Empty, glob, [])
  {
  }

  /** The same from an empty store. */
  lemma HistoryIsConserved(glob: string, events: seq<Event>)
    requires LegalRun(Empty, glob, [], events)
    ensures var (g, all) := After(Empty, glob, [], events);
            Conserved(View(g.rows, glob), all) && CacheOk(View(g.rows, glob), g)
  {
    hide Conserved, CacheOk, LegalRun, After;
    EmptyStoreIsGood(glob);
    EventsAreConserved(Empty, glob, [], events);
  }

  // ---------- Reading the whole history ----------

  // What repeated fetches return, until one returns nothing: indexes and lists.
  ghost function Browse(h: Hist, glob: string, added: seq<HistEl>): seq<(Option<string>, seq<HistEl>)>
    requires Good(h, glob, added)
    decreases MatchCount(h.rows, glob, 1, h.iter, false)
  {
    var (g, bulk) := Next(h, glob, None);
    match bulk
    case Nothing => []
    case Bulk(idx, list) =>
      NextKeeps(h, glob, added, None);
      NextMovesOn(h, glob, added);
      [(idx, list)] + Browse(g, glob, added)
  }

  lemma NextMovesOn(h: Hist, glob: string, added: seq<HistEl>)
    requires Good(h, glob, added) && Next(h, glob, None).1 != Nothing
    ensures var r := Fetch(h.rows, glob, 1, h.iter, false).value;
            && Next(h, glob, None).1 == Bulk(Some(r.idx), Sorted(HistParsed(r.blob)))
            && Next(h, glob, None).0.iter == Some(r.idx) && Next(h, glob, None).0.rows == h.rows
            && MatchCount(h.rows, glob, 1, Some(r.idx), false) < MatchCount(h.rows, glob, 1, h.iter, false)
  {
    hide Codec.HistParsed, Store.View, Store.Unique, Conserved, Sorted;
    var r := Fetch(h.rows, glob, 1, h.iter, false).value;
    FetchedKeyIsIdx(h, glob, added, r);
    PastRow(h.rows, glob, 1, h.iter, false, r);
  }

  /** Browsing from anywhere returns the rows paging visits, each with its events in descending order of time. */
  lemma {:induction false} BrowseIsPaging(h: Hist, glob: string, added: seq<HistEl>)
    requires Good(h, glob, added)
    ensures var bulks, pages := Browse(h, glob, added), Pages(h.rows, glob, 1, h.iter, false);
            && |bulks| == |pages|
            && (forall k | 0 <= k < |bulks| :: bulks[k] == (Some(pages[k].idx), Sorted(HistParsed(pages[k].blob))))
    decreases MatchCount(h.rows, glob, 1, h.iter, false)
  {
    hide Codec.HistParsed, Store.View, Store.Unique, Conserved, Sorted;
    var (g, bulk) := Next(h, glob, None);
    if bulk != Nothing {
      NextKeeps(h, glob, added, None);
      NextMovesOn(h, glob, added);
      BrowseIsPaging(g, glob, added);
    }
  }

  lemma EventIsOnAPage(h: Hist, glob: string, added: seq<HistEl>, e: HistEl) returns (r: Row)
    requires Good(h, glob, added) && e in added
    ensures r in Pages(h.rows, glob, 1, None, false) && e in HistParsed(r.blob)
  {
    hide Codec.HistParsed, Store.View;
    var m := View(h.rows, glob);
    PagingIsComplete(h.rows, glob, 1, false);
    var idx :| idx in m && e in EventsAt(m, idx);
    r := RowOfView(h.rows, glob, idx);
    assert RowOk(m, idx, added);
  }

  /** After a reset, browsing shows every added event, and nothing else. */
  lemma BrowseShowsEverything(h: Hist, glob: string, added: seq<HistEl>, e: HistEl)
    requires Good(h, glob, added) && h.iter == None
    ensures e in added <==> exists k :: 0 <= k < |Browse(h, glob, added)| && e in Browse(h, glob, added)[k].1
  {
    hide Codec.HistParsed, Store.View, Browse, Store.Pages, Sorted;
    var bulks, pages := Browse(h, glob, added), Pages(h.rows, glob, 1, None, false);
    BrowseIsPaging(h, glob, added);
    if e in added {
      var r := EventIsOnAPage(h, glob, added, e);
      var k :| 0 <= k < |pages| && pages[k] == r;
      assert e in multiset(HistParsed(r.blob)) && e in multiset(bulks[k].1);
    }
    if k :| 0 <= k < |bulks| && e in bulks[k].1 {
      var r := pages[k];
      assert r in pages;
      FetchedKeyIsIdx(h, glob, added, r);
      assert e in multiset(bulks[k].1) && e in multiset(HistParsed(r.blob));
      assert e in EventsAt(View(h.rows, glob), r.idx) && RowOk(View(h.rows, glob), r.idx, added);
    }
  }

  /** A reset leaves the rows, forgets the cache and the cursor, and so shows everything again. */
  lemma ResetShowsEverything(h: Hist, glob: string, added: seq<HistEl>, e: HistEl)
    requires Good(h, glob, added)
    ensures Good(Reset(h), glob, added) && Reset(h) == Hist(h.rows, None, None, None)
    ensures e in added <==>
            exists k :: 0 <= k < |Browse(Reset(h), glob, added)| && e in Browse(Reset(h), glob, added)[k].1
  {
    hide Codec.HistParsed, Store.View, Store.Unique, Conserved, Browse;
    BrowseShowsEverything(Reset(h), glob, added, e);
  }

  // ---------- Which row is cached ----------

  // The greatest index of the current rows.
  ghost predicate Newest(m: map<string, (int, Blob)>, k: string) {
    k in m && forall l | l in m :: !Less(k, l)
  }

  /** A fetch with a row cached leaves the cache alone. */
  lemma FetchKeepsCache(h: Hist, glob: string, start: Option<string>, idx: Option<string>)
    requires h.top.Some?
    ensures var g := FetchFrom(h, glob, start, idx).0;
            g.top == h.top && g.topIdx == h.topIdx && g.rows == h.rows
  {
  }

  /** The first fetch after a reset caches the newest row. */
  lemma FirstFetchCachesNewest(h: Hist, glob: string, added: seq<HistEl>, idx: Option<string>)
    requires Good(h, glob, added) && h.top.None? && h.iter.None? && View(h.rows, glob) != map[]
    ensures var g := Next(h, glob, idx).0;
            g.top.Some? && g.topIdx.Some? && g.rows == h.rows && Newest(View(g.rows, glob), g.topIdx.value)
  {
    hide Codec.HistParsed, Store.View, Store.Unique, Sorted;
    var m := View(h.rows, glob);
    var k :| k in m;
    var at := RowOfView(h.rows, glob, k);
    assert RowOk(m, k, added) && Matches(at, glob, 1, None, false);
    var i := FetchBelow(h.rows, glob, 1, None, false, |h.rows|);
    assert i != -1;
    var r := h.rows[i];
    FetchedKeyIsIdx(h, glob, added, r);
    forall l | l in m ensures !Less(r.idx, l) {
      var s := RowOfView(h.rows, glob, l);
      assert RowOk(m, l, added) && Matches(s, glob, 1, None, false);
      var j :| 0 <= j < |h.rows| && h.rows[j] == s;
    }
  }

  // The run forgets nothing.
  predicate Remembers(events: seq<Event>) {
    forall k | 0 <= k < |events| :: !events[k].Forgotten?
  }

  // Adding to the cached row changes no index.
  lemma AddKeepsNewest(h: Hist, glob: string, added: seq<HistEl>, key: string, e: HistEl)
    requires Good(h, glob, added) && CanAppend(h, glob, added, key, e) && h.top.Some?
    requires Newest(View(h.rows, glob), h.topIdx.value)
    ensures var g := Add(h, glob, key, e);
            g.top.Some? && g.topIdx == h.topIdx && Newest(View(g.rows, glob), g.topIdx.value)
  {
    hide Codec.HistBlob, Codec.HistParsed, Store.AddState, Store.View, Store.Unique;
    AddUpdatesView(h.rows, glob, key, AddIdx(h, e), HistBlob(AddList(h, e)), 1);
  }

  lemma {:induction false} NewestStays(h: Hist, glob: string, added: seq<HistEl>, events: seq<Event>)
    requires Good(h, glob, added) && LegalRun(h, glob, added, events) && Remembers(events)
    requires h.top.Some? && Newest(View(h.rows, glob), h.topIdx.value)
    ensures var g := After(h, glob, added, events).0;
            g.top.Some? && g.topIdx == h.topIdx && Newest(View(g.rows, glob), g.topIdx.value)
    decreases |events|
  {
    hide Good, Newest, Add, Store.Fetch, Store.View, Store.Fresh;
    if events != [] {
      match events[0] {
        case Added(e, key) =>
          AddKeeps(h, glob, added, key, e);
          AddKeepsNewest(h, glob, added, key, e);
        case Fetched(idx) =>
          NextKeeps(h, glob, added, idx);
          FetchKeepsCache(h, glob, h.iter, idx);
      }
      NewestStays(Step(h, glob, events[0]), glob, Noted(added, events[0]), events[1..]);
    }
  }

  /**
   From an empty cache and a null cursor, over every run that starts with a fetch and has no reset: the cached row
   is the one with the greatest index, however many older rows have been fetched since.
   */
  lemma CacheIsNewest(h: Hist, glob: string, added: seq<HistEl>, idx: Option<string>, events: seq<Event>)
    requires Good(h, glob, added) && h.top.None? && h.iter.None? && View(h.rows, glob) != map[]
    requires LegalRun(Next(h, glob, idx).0, glob, added, events) && Remembers(events)
    ensures var g := After(Next(h, glob, idx).0, glob, added, events).0;
            g.topIdx.Some? && Newest(View(g.rows, glob), g.topIdx.value)
  {
    hide Good, Newest, Next, LegalRun, After, Store.View;
    FirstFetchCachesNewest(h, glob, added, idx);
    NextKeeps(h, glob, added, idx);
    NewestStays(Next(h, glob, idx).0, glob, added, events);
  }

  /** An event added with a row cached is in that row and in no other. */
  lemma AddJoinsCache(h: Hist, glob: string, added: seq<HistEl>, key: string, e: HistEl, k: string)
    requires Good(h, glob, added) && CanAppend(h, glob, added, key, e) && h.top.Some?
    requires k in View(Add(h, glob, key, e).rows, glob)
    ensures e in EventsAt(View(Add(h, glob, key, e).rows, glob), k) <==> Some(k) == h.topIdx
  {
    hide Codec.HistBlob, Codec.HistParsed, Store.AddState, Store.View, Store.Unique;
    var m, list, idx := View(h.rows, glob), AddList(h, e), AddIdx(h, e);
    AddedListReadsBack(h, glob, added, e);
    AddUpdatesView(h.rows, glob, key, idx, HistBlob(list), 1);
    if k != idx {
      assert RowOk(m, k, added);
    } else {
      assert e in list;
    }
  }
}

/** The append-only table: rows are inserted, and older rows with the same index are flagged obsolete. */
module Store {
  import opened Text
  import opened Codec

  // `curnt` is 0 for an obsolete row, and otherwise the state the row was written with.
  datatype Row = Row(key: string, idx: string, blob: Blob, curnt: int)

  // `blob_key GLOB 'prefix/*'`
  predicate Owned(glob: string, key: string) {
    glob <= key
  }

  // ---------- The SQL statements ----------

  function Obsoleted(r: Row, glob: string, key: string, idx: string): Row {
    if r.idx == idx && Owned(glob, r.key) && Less(r.key, key) then r.(curnt := 0) else r
  }

  function Obsolete(rows: seq<Row>, glob: string, key: string, idx: string): (r: seq<Row>)
    ensures |r| == |rows|
    ensures forall i | 0 <= i < |rows| :: r[i] == Obsoleted(rows[i], glob, key, idx)
  {
    seq(|rows|, i requires 0 <= i < |rows| => Obsoleted(rows[i], glob, key, idx))
  }

  function AddState(rows: seq<Row>, glob: string, key: string, idx: string, blob: Blob, state: int): seq<Row> {
    Obsolete(rows + [Row(key, idx, blob, state)], glob, key, idx)
  }

  predicate Matches(r: Row, glob: string, state: int, start: Option<string>, asc: bool) {
    Owned(glob, r.key) && r.curnt == state &&
    match start
    case None => true
    case Some(s) => if asc then Less(s, r.idx) else Less(r.idx, s)
  }

  // `ORDER BY idx LIMIT 1`: no matching row comes before this one.
  function FetchBelow(rows: seq<Row>, glob: string, state: int, start: Option<string>, asc: bool, n: nat): (r: int)
    requires n <= |rows|
    ensures -1 <= r < n
    ensures r == -1 ==> forall i | 0 <= i < n :: !Matches(rows[i], glob, state, start, asc)
    ensures r >= 0 ==> Matches(rows[r], glob, state, start, asc)
    ensures r >= 0 ==> forall i | 0 <= i < n && Matches(rows[i], glob, state, start, asc) ::
                         !(if asc then Less(rows[i].idx, rows[r].idx) else Less(rows[r].idx, rows[i].idx))
  {
    if n == 0 then -1
    else
      var b := FetchBelow(rows, glob, state, start, asc, n - 1);
      var c := rows[n - 1];
      if !Matches(c, glob, state, start, asc) then b
      else if b == -1 then (LessIsIrreflexive(c.idx); n - 1)
      else
        (LessIsIrreflexive(c.idx);
         NotLessIsTransitive(rows[..n - 1], c, rows[b], asc);
         if (if asc then Less(c.idx, rows[b].idx) else Less(rows[b].idx, c.idx)) then n - 1 else b)
  }

  lemma NotLessIsTransitive(rows: seq<Row>, c: Row, b: Row, asc: bool)
    ensures forall i | 0 <= i < |rows| ::
              asc && !Less(rows[i].idx, b.idx) && Less(c.idx, b.idx) ==> !Less(rows[i].idx, c.idx)
    ensures forall i | 0 <= i < |rows| ::
              !asc && !Less(b.idx, rows[i].idx) && Less(b.idx, c.idx) ==> !Less(c.idx, rows[i].idx)
  {
    forall i | 0 <= i < |rows| && asc && !Less(rows[i].idx, b.idx) && Less(c.idx, b.idx)
      ensures !Less(rows[i].idx, c.idx)
    {
      if Less(rows[i].idx, c.idx) {
        LessIsTransitive(rows[i].idx, c.idx, b.idx);
      }
    }
    forall i | 0 <= i < |rows| && !asc && !Less(b.idx, rows[i].idx) && Less(b.idx, c.idx)
      ensures !Less(c.idx, rows[i].idx)
    {
      if Less(c.idx, rows[i].idx) {
        LessIsTransitive(b.idx, c.idx, rows[i].idx);
      }
    }
  }

  function Fetch(rows: seq<Row>, glob: string, state: int, start: Option<string>, asc: bool): (r: Option<Row>)
    ensures r.Some? ==> r.value in rows && Matches(r.value, glob, state, start, asc)
    ensures r == None ==> forall i | 0 <= i < |rows| :: !Matches(rows[i], glob, state, start, asc)
  {
    var i := FetchBelow(rows, glob, state, start, asc, |rows|);
    if i == -1 then None else Some(rows[i])
  }

  // ---------- The table as a map of latest writes ----------

  // One client's current rows.
  function View(rows: seq<Row>, glob: string): map<string, (int, Blob)> {
    if rows == [] then map[]
    else
      var n := |rows| - 1;
      var r := rows[n];
      if Owned(glob, r.key) && r.curnt != 0 then View(rows[..n], glob)[r.idx := (r.curnt, r.blob)]
      else View(rows[..n], glob)
  }

  predicate Current(r: Row, glob: string) {
    Owned(glob, r.key) && r.curnt != 0
  }

  predicate Unique(rows: seq<Row>, glob: string) {
    forall i, j | 0 <= i < j < |rows| && Current(rows[i], glob) && Current(rows[j], glob) :: rows[i].idx != rows[j].idx
  }

  // The premise on the clock: the key is greater than those of the client's current rows of this index.
  predicate Fresh(rows: seq<Row>, glob: string, key: string, idx: string) {
    Owned(glob, key) && forall r | r in rows && Current(r, glob) && r.idx == idx :: Less(r.key, key)
  }

  lemma {:induction false} RowIsViewed(rows: seq<Row>, glob: string, r: Row)
    requires r in rows && Current(r, glob)
    ensures r.idx in View(rows, glob)
  {
    var n := |rows| - 1;
    if r != rows[n] {
      assert r in rows[..n];
      RowIsViewed(rows[..n], glob, r);
    }
  }

  lemma {:induction false} RowOfView(rows: seq<Row>, glob: string, idx: string) returns (r: Row)
    requires idx in View(rows, glob)
    ensures r in rows && Current(r, glob) && r.idx == idx && View(rows, glob)[idx] == (r.curnt, r.blob)
  {
    var n := |rows| - 1;
    if Current(rows[n], glob) && rows[n].idx == idx {
      r := rows[n];
    } else {
      r := RowOfView(rows[..n], glob, idx);
    }
  }

  lemma UniqueRowIsInView(rows: seq<Row>, glob: string, r: Row)
    requires Unique(rows, glob) && r in rows && Current(r, glob)
    ensures r.idx in View(rows, glob) && View(rows, glob)[r.idx] == (r.curnt, r.blob)
  {
    RowIsViewed(rows, glob, r);
    var s := RowOfView(rows, glob, r.idx);
    var i :| 0 <= i < |rows| && rows[i] == r;
    var j :| 0 <= j < |rows| && rows[j] == s;
    assert i == j;
  }

  // Flagging every current row of an index takes the index out of the client's view, and touches no other.
  lemma {:induction false} ObsoleteTakesOut(rows: seq<Row>, glob: string, key: string, idx: string)
    requires Fresh(rows, glob, key, idx)
    ensures View(Obsolete(rows, glob, key, idx), glob) == View(rows, glob) - {idx}
  {
    if rows != [] {
      var n := |rows| - 1;
      ObsoleteTakesOut(rows[..n], glob, key, idx);
      assert Obsolete(rows, glob, key, idx)[..n] == Obsolete(rows[..n], glob, key, idx);
      assert rows[n] in rows;
    }
  }

  predicate Apart(a: string, b: string) {
    !(a <= b) && !(b <= a)
  }

  lemma {:induction false} ObsoleteLeavesOthers(rows: seq<Row>, glob: string, key: string, idx: string, other: string)
    requires Apart(glob, other)
    ensures View(Obsolete(rows, glob, key, idx), other) == View(rows, other)
  {
    if rows != [] {
      var n := |rows| - 1;
      ObsoleteLeavesOthers(rows[..n], glob, key, idx, other);
      assert Obsolete(rows, glob, key, idx)[..n] == Obsolete(rows[..n], glob, key, idx);
      ApartOwners(glob, other, rows[n].key);
    }
  }

  lemma ApartOwners(a: string, b: string, key: string)
    requires Apart(a, b)
    ensures !(Owned(a, key) && Owned(b, key))
  {
  }

  lemma AddIsObsoleteThenInsert(rows: seq<Row>, glob: string, key: string, idx: string, blob: Blob, state: int)
    ensures AddState(rows, glob, key, idx, blob, state) == Obsolete(rows, glob, key, idx) + [Row(key, idx, blob, state)]
  {
    LessIsIrreflexive(key);
  }

  /** A write with a fresh key is a map update in the client's view. */
  lemma AddUpdatesView(rows: seq<Row>, glob: string, key: string, idx: string, blob: Blob, state: int)
    requires Fresh(rows, glob, key, idx) && state != 0
    ensures View(AddState(rows, glob, key, idx, blob, state), glob) == View(rows, glob)[idx := (state, blob)]
  {
    AddIsObsoleteThenInsert(rows, glob, key, idx, blob, state);
    ObsoleteTakesOut(rows, glob, key, idx);
    var old' := Obsolete(rows, glob, key, idx);
    assert (old' + [Row(key, idx, blob, state)])[..|rows|] == old';
  }

  /** A write changes no other client's view, whatever its key. */
  lemma AddLeavesOthers(rows: seq<Row>, glob: string, key: string, idx: string, blob: Blob, state: int, other: string)
    requires Owned(glob, key) && Apart(glob, other)
    ensures View(AddState(rows, glob, key, idx, blob, state), other) == View(rows, other)
  {
    AddIsObsoleteThenInsert(rows, glob, key, idx, blob, state);
    ObsoleteLeavesOthers(rows, glob, key, idx, other);
    ApartOwners(glob, other, key);
    var old' := Obsolete(rows, glob, key, idx);
    assert (old' + [Row(key, idx, blob, state)])[..|rows|] == old';
  }

  /** A write keeps one current row for each index exactly when its key is fresh. */
  lemma AddKeepsUniqueIffFresh(rows: seq<Row>, glob: string, key: string, idx: string, blob: Blob, state: int)
    requires Unique(rows, glob) && Owned(glob, key) && state != 0
    ensures Unique(AddState(rows, glob, key, idx, blob, state), glob) <==> Fresh(rows, glob, key, idx)
  {
    AddIsObsoleteThenInsert(rows, glob, key, idx, blob, state);
    var after, n := AddState(rows, glob, key, idx, blob, state), |rows|;
    if Fresh(rows, glob, key, idx) {
      forall i, j | 0 <= i < j < |after| && Current(after[i], glob) && Current(after[j], glob)
        ensures after[i].idx != after[j].idx
      {
        assert after[i] == Obsoleted(rows[i], glob, key, idx) && rows[i] in rows;
        if j < n {
          assert after[j] == Obsoleted(rows[j], glob, key, idx);
        }
      }
    } else {
      var r :| r in rows && Current(r, glob) && r.idx == idx && !Less(r.key, key);
      var i :| 0 <= i < n && rows[i] == r;
      assert after[i] == r && Current(after[n], glob) && after[n].idx == idx;
    }
  }

  lemma {:induction false} ObsoleteKeepsOtherRows(rows: seq<Row>, glob: string, key: string, idx: string, other: string)
    requires Apart(glob, other) && Unique(rows, other)
    ensures Unique(Obsolete(rows, glob, key, idx), other)
  {
    var after := Obsolete(rows, glob, key, idx);
    forall i | 0 <= i < |rows| ensures Current(after[i], other) ==> after[i] == rows[i] {
      ApartOwners(glob, other, rows[i].key);
    }
  }

  // ---------- Keys to come ----------

  // Every key to come is greater than every key of the client so far.
  predicate KeysAhead(rows: seq<Row>, glob: string, keys: seq<string>) {
    && (forall i | 0 <= i < |keys| :: Owned(glob, keys[i]))
    && (forall i, r | 0 <= i < |keys| && r in rows && Owned(glob, r.key) :: Less(r.key, keys[i]))
    && (forall i, j | 0 <= i < j < |keys| :: Less(keys[i], keys[j]))
  }

  lemma KeysStayAhead(rows: seq<Row>, glob: string, keys: seq<string>, idx: string, blob: Blob, state: int)
    requires KeysAhead(rows, glob, keys) && keys != []
    ensures Fresh(rows, glob, keys[0], idx)
    ensures KeysAhead(AddState(rows, glob, keys[0], idx, blob, state), glob, keys[1..])
  {
    AddIsObsoleteThenInsert(rows, glob, keys[0], idx, blob, state);
    var after := AddState(rows, glob, keys[0], idx, blob, state);
    forall i, r | 0 <= i < |keys[1..]| && r in after && Owned(glob, r.key) ensures Less(r.key, keys[1..][i]) {
      var j :| 0 <= j < |after| && after[j] == r;
      if j < |rows| {
        assert after[j] == Obsoleted(rows[j], glob, keys[0], idx) && rows[j] in rows;
      }
    }
  }

  // ---------- Several clients, any number of writes ----------

  datatype Write = Write(glob: string, key: string, idx: string, blob: Blob, state: int)

  function Table(writes: seq<Write>): seq<Row> {
    if writes == [] then []
    else
      var w := writes[|writes| - 1];
      AddState(Table(writes[..|writes| - 1]), w.glob, w.key, w.idx, w.blob, w.state)
  }

  // What a client has written last to each index.
  function Latest(writes: seq<Write>, glob: string): map<string, (int, Blob)> {
    if writes == [] then map[]
    else
      var w, before := writes[|writes| - 1], Latest(writes[..|writes| - 1], glob);
      if w.glob == glob then before[w.idx := (w.state, w.blob)] else before
  }

  predicate WellTimed(writes: seq<Write>, glob: string) {
    writes == [] ||
    (var w, n := writes[|writes| - 1], |writes| - 1;
     && WellTimed(writes[..n], glob) && w.state != 0
     && (if w.glob == glob then Fresh(Table(writes[..n]), glob, w.key, w.idx)
         else Owned(w.glob, w.key) && Apart(w.glob, glob)))
  }

  /** The table refines, for each client, the map of its latest writes, with one current row for each index. */
  lemma {:induction false} TableRefinesLatest(writes: seq<Write>, glob: string)
    requires WellTimed(writes, glob)
    ensures View(Table(writes), glob) == Latest(writes, glob)
    ensures Unique(Table(writes), glob)
  {
    if writes != [] {
      var w, n := writes[|writes| - 1], |writes| - 1;
      var before := Table(writes[..n]);
      TableRefinesLatest(writes[..n], glob);
      if w.glob == glob {
        AddUpdatesView(before, glob, w.key, w.idx, w.blob, w.state);
        AddKeepsUniqueIffFresh(before, glob, w.key, w.idx, w.blob, w.state);
      } else {
        AddLeavesOthers(before, w.glob, w.key, w.idx, w.blob, w.state, glob);
        AddKeepsOtherUnique(before, w.glob, w.key, w.idx, w.blob, w.state, glob);
      }
    }
  }

  lemma AddKeepsOtherUnique(rows: seq<Row>, glob: string, key: string, idx: string, blob: Blob, state: int,
                            other: string)
    requires Owned(glob, key) && Apart(glob, other) && Unique(rows, other)
    ensures Unique(AddState(rows, glob, key, idx, blob, state), other)
  {
    AddIsObsoleteThenInsert(rows, glob, key, idx, blob, state);
    ObsoleteKeepsOtherRows(rows, glob, key, idx, other);
    ApartOwners(glob, other, key);
  }

  // ---------- Paging ----------

  function MatchCount(rows: seq<Row>, glob: string, state: int, start: Option<string>, asc: bool): nat {
    if rows == [] then 0
    else
      var n := |rows| - 1;
      MatchCount(rows[..n], glob, state, start, asc) + if Matches(rows[n], glob, state, start, asc) then 1 else 0
  }

  // Past a matching row there is less to come.
  lemma {:induction false} PastRow(rows: seq<Row>, glob: string, state: int, start: Option<string>, asc: bool, r: Row)
    requires Matches(r, glob, state, start, asc)
    ensures var past, all := MatchCount(rows, glob, state, Some(r.idx), asc), MatchCount(rows, glob, state, start, asc);
            past <= all && (r in rows ==> past < all)
  {
    if rows != [] {
      var n := |rows| - 1;
      var c := rows[n];
      PastRow(rows[..n], glob, state, start, asc, r);
      PastImpliesHere(glob, state, start, asc, r, c);
      LessIsIrreflexive(r.idx);
    }
  }

  lemma PastImpliesHere(glob: string, state: int, start: Option<string>, asc: bool, r: Row, c: Row)
    requires Matches(r, glob, state, start, asc)
    ensures Matches(c, glob, state, Some(r.idx), asc) ==> Matches(c, glob, state, start, asc)
  {
    if Matches(c, glob, state, Some(r.idx), asc) && start.Some? {
      if asc {
        LessIsTransitive(start.value, r.idx, c.idx);
      } else {
        LessIsTransitive(c.idx, r.idx, start.value);
      }
    }
  }

  // Repeated fetches, each from the index of the row before.
  function Pages(rows: seq<Row>, glob: string, state: int, start: Option<string>, asc: bool): (pages: seq<Row>)
    ensures forall p | p in pages :: p in rows && Matches(p, glob, state, start, asc)
    decreases MatchCount(rows, glob, state, start, asc)
  {
    match Fetch(rows, glob, state, start, asc)
    case None => []
    case Some(r) =>
      PastRow(rows, glob, state, start, asc, r);
      var rest := Pages(rows, glob, state, Some(r.idx), asc);
      assert forall p | p in rest :: p in rows && Matches(p, glob, state, start, asc) by {
        forall p | p in rest ensures p in rows && Matches(p, glob, state, start, asc) {
          PastImpliesHere(glob, state, start, asc, r, p);
        }
      }
      [r] + rest
  }

  predicate InOrder(pages: seq<Row>, asc: bool) {
    forall i, j | 0 <= i < j < |pages| ::
      if asc then Less(pages[i].idx, pages[j].idx) else Less(pages[j].idx, pages[i].idx)
  }

  lemma {:induction false} PagesAreInOrder(rows: seq<Row>, glob: string, state: int, start: Option<string>, asc: bool)
    ensures InOrder(Pages(rows, glob, state, start, asc), asc)
    decreases MatchCount(rows, glob, state, start, asc)
  {
    match Fetch(rows, glob, state, start, asc)
    case None =>
    case Some(r) =>
      PastRow(rows, glob, state, start, asc, r);
      PagesAreInOrder(rows, glob, state, Some(r.idx), asc);
      var pages, rest := Pages(rows, glob, state, start, asc), Pages(rows, glob, state, Some(r.idx), asc);
      forall i, j | 0 <= i < j < |pages|
        ensures if asc then Less(pages[i].idx, pages[j].idx) else Less(pages[j].idx, pages[i].idx)
      {
        assert pages[j] == rest[j - 1] && rest[j - 1] in rest;
        if i > 0 {
          assert pages[i] == rest[i - 1];
        }
      }
  }

  lemma {:induction false} PagesCoverRow(rows: seq<Row>, glob: string, state: int, start: Option<string>,
                                         asc: bool, c: Row)
    requires c in rows && Matches(c, glob, state, start, asc)
    ensures exists p :: p in Pages(rows, glob, state, start, asc) && p.idx == c.idx
    decreases MatchCount(rows, glob, state, start, asc)
  {
    var i := FetchBelow(rows, glob, state, start, asc, |rows|);
    var k :| 0 <= k < |rows| && rows[k] == c;
    assert i != -1;
    var r := rows[i];
    PastRow(rows, glob, state, start, asc, r);
    LessIsTotal(r.idx, c.idx);
    var pages := Pages(rows, glob, state, start, asc);
    assert pages[0] == r && r in pages;
    if c.idx != r.idx {
      PagesCoverRow(rows, glob, state, Some(r.idx), asc, c);
      var p :| p in Pages(rows, glob, state, Some(r.idx), asc) && p.idx == c.idx;
      assert p in pages;
    }
  }

  /** Paging visits exactly the rows past its start, each once, in strict order of index. */
  lemma PagesAreTheMatches(rows: seq<Row>, glob: string, state: int, start: Option<string>, asc: bool)
    requires Unique(rows, glob) && state != 0
    ensures var pages := Pages(rows, glob, state, start, asc);
            && InOrder(pages, asc)
            && (forall r :: r in pages <==> r in rows && Matches(r, glob, state, start, asc))
  {
    PagesAreInOrder(rows, glob, state, start, asc);
    var pages := Pages(rows, glob, state, start, asc);
    forall r | r in rows && Matches(r, glob, state, start, asc) ensures r in pages {
      PagesCoverRow(rows, glob, state, start, asc, r);
      var p :| p in pages && p.idx == r.idx;
      SameIdxSameRow(rows, glob, p, r);
    }
  }

  /** From the start, that is every current row of the state. */
  lemma PagingIsComplete(rows: seq<Row>, glob: string, state: int, asc: bool)
    requires Unique(rows, glob) && state != 0
    ensures var pages := Pages(rows, glob, state, None, asc);
            && InOrder(pages, asc)
            && (forall r :: r in pages <==> r in rows && Owned(glob, r.key) && r.curnt == state)
  {
    PagesAreTheMatches(rows, glob, state, None, asc);
  }

  lemma SameIdxSameRow(rows: seq<Row>, glob: string, p: Row, r: Row)
    requires Unique(rows, glob) && p in rows && r in rows && p.idx == r.idx
    requires Current(p, glob) && Current(r, glob)
    ensures p == r
  {
    var i :| 0 <= i < |rows| && rows[i] == p;
    var j :| 0 <= j < |rows| && rows[j] == r;
    assert i == j;
  }

  predicate SameMatches(rows: seq<Row>, start: Option<string>, rows': seq<Row>, start': Option<string>,
                        glob: string, state: int, asc: bool)
  {
    && (forall r | r in rows && Matches(r, glob, state, start, asc) ::
          r in rows' && Matches(r, glob, state, start', asc))
    && (forall r | r in rows' && Matches(r, glob, state, start', asc) ::
          r in rows && Matches(r, glob, state, start, asc))
  }

  // A fetch depends only on the rows that match.
  lemma FetchAgrees(rows: seq<Row>, start: Option<string>, rows': seq<Row>, start': Option<string>,
                    glob: string, state: int, asc: bool)
    requires Unique(rows, glob) && state != 0 && SameMatches(rows, start, rows', start', glob, state, asc)
    ensures Fetch(rows, glob, state, start, asc) == Fetch(rows', glob, state, start', asc)
  {
    var i := FetchBelow(rows, glob, state, start, asc, |rows|);
    var j := FetchBelow(rows', glob, state, start', asc, |rows'|);
    if i != -1 && j != -1 {
      var r, s := rows[i], rows'[j];
      assert r in rows' && s in rows;
      var k :| 0 <= k < |rows| && rows[k] == s;
      var l :| 0 <= l < |rows'| && rows'[l] == r;
      LessIsTotal(r.idx, s.idx);
      SameIdxSameRow(rows, glob, r, s);
    }
  }

  lemma {:induction false} PagesAgree(rows: seq<Row>, start: Option<string>, rows': seq<Row>, start': Option<string>,
                                      glob: string, state: int, asc: bool)
    requires Unique(rows, glob) && state != 0 && SameMatches(rows, start, rows', start', glob, state, asc)
    ensures Pages(rows, glob, state, start, asc) == Pages(rows', glob, state, start', asc)
    decreases MatchCount(rows, glob, state, start, asc)
  {
    FetchAgrees(rows, start, rows', start', glob, state, asc);
    match Fetch(rows, glob, state, start, asc)
    case None =>
    case Some(r) =>
      PastRow(rows, glob, state, start, asc, r);
      forall c | c in rows && Matches(c, glob, state, Some(r.idx), asc) ensures c in rows' {
        PastImpliesHere(glob, state, start, asc, r, c);
      }
      forall c | c in rows' && Matches(c, glob, state, Some(r.idx), asc) ensures c in rows {
        PastImpliesHere(glob, state, start', asc, r, c);
      }
      PagesAgree(rows, Some(r.idx), rows', Some(r.idx), glob, state, asc);
  }

  // ---------- Keys ----------

  // `store_key` prints the time of the write without padding.
  function Key(prefix: string, sec: nat, usec: nat): string {
    prefix + "/" + Decimal(sec) + "." + Decimal(usec)
  }

  /** A key, written out. */
  lemma AKey()
    ensures Key("me/h", 7, 42) == "me/h/7.42"
  {
    assert Decimal(7) == "7" && Decimal(4) == "4" && Decimal(42) == Decimal(4) + "2";
  }

  lemma {:induction false} LessAfterPrefix(x: string, a: string, b: string)
    ensures Less(x + a, x + b) <==> Less(a, b)
  {
    if x == [] {
      assert x + a == a && x + b == b;
    } else {
      assert (x + a)[1..] == x[1..] + a && (x + b)[1..] == x[1..] + b;
      LessAfterPrefix(x[1..], a, b);
    }
  }

  /** Within a second, keys are in order exactly when the microseconds are in order as text. */
  lemma KeysWithinSecond(prefix: string, sec: nat, u: nat, v: nat)
    ensures Less(Key(prefix, sec, u), Key(prefix, sec, v)) <==> Less(Decimal(u), Decimal(v))
  {
    LessAfterPrefix(prefix + "/" + Decimal(sec) + ".", Decimal(u), Decimal(v));
  }

  lemma LessOfSameLength(a: string, b: string, x: string, y: string)
    requires |a| == |b| && Less(a, b)
    ensures Less(a + x, b + y)
  {
    assert a != [] && b != [];
    assert (a + x)[1..] == a[1..] + x && (b + y)[1..] == b[1..] + y;
    if a[0] == b[0] {
      LessOfSameLength(a[1..], b[1..], x, y);
    }
  }

  lemma {:induction false} DecimalsInOrder(m: nat, n: nat)
    requires m < n && |Decimal(m)| == |Decimal(n)|
    ensures Less(Decimal(m), Decimal(n))
  {
    var c, d := ['0' + (m % 10) as char], ['0' + (n % 10) as char];
    if n >= 10 {
      assert m >= 10;
      if m / 10 < n / 10 {
        DecimalsInOrder(m / 10, n / 10);
        LessOfSameLength(Decimal(m / 10), Decimal(n / 10), c, d);
      } else {
        LessAfterPrefix(Decimal(m / 10), c, d);
      }
    }
  }

  /**
   For seconds of one length, keys are in order exactly when the seconds are, or within one second the
   microseconds as text.
   */
  lemma KeysAcrossSeconds(prefix: string, s: nat, u: nat, t: nat, v: nat)
    requires |Decimal(s)| == |Decimal(t)|
    ensures Less(Key(prefix, s, u), Key(prefix, t, v)) <==> s < t || (s == t && Less(Decimal(u), Decimal(v)))
  {
    if s == t {
      KeysWithinSecond(prefix, s, u, v);
    } else if s < t {
      EarlierSecondIsLess(prefix, s, u, t, v);
    } else {
      EarlierSecondIsLess(prefix, t, v, s, u);
      LessIsAsymmetric(Key(prefix, t, v), Key(prefix, s, u));
    }
  }

  lemma EarlierSecondIsLess(prefix: string, s: nat, u: nat, t: nat, v: nat)
    requires s < t && |Decimal(s)| == |Decimal(t)|
    ensures Less(Key(prefix, s, u), Key(prefix, t, v))
  {
    DecimalsInOrder(s, t);
    LessOfSameLength(Decimal(s), Decimal(t), "." + Decimal(u), "." + Decimal(v));
    LessAfterPrefix(prefix + "/", Decimal(s) + ("." + Decimal(u)), Decimal(t) + ("." + Decimal(v)));
    assert Key(prefix, s, u) == prefix + "/" + (Decimal(s) + ("." + Decimal(u)));
    assert Key(prefix, t, v) == prefix + "/" + (Decimal(t) + ("." + Decimal(v)));
  }

  // Readings of the clock: seconds and microseconds.
  predicate InTime(times: seq<(nat, nat)>) {
    forall i, j | 0 <= i < j < |times| ::
      times[i].0 < times[j].0 || (times[i].0 == times[j].0 && Less(Decimal(times[i].1), Decimal(times[j].1)))
  }

  function Keys(prefix: string, times: seq<(nat, nat)>): (keys: seq<string>)
    ensures |keys| == |times|
    ensures forall i | 0 <= i < |times| :: keys[i] == Key(prefix, times[i].0, times[i].1)
  {
    seq(|times|, i requires 0 <= i < |times| => Key(prefix, times[i].0, times[i].1))
  }

  /**
   So the premise on keys is a premise on the clock: in an empty store, keys are ahead exactly when the readings
   are in time.
   */
  lemma ClockKeepsKeysAhead(prefix: string, times: seq<(nat, nat)>)
    requires forall i, j | 0 <= i < j < |times| :: |Decimal(times[i].0)| == |Decimal(times[j].0)|
    ensures KeysAhead([], prefix + "/", Keys(prefix, times)) <==> InTime(times)
  {
    hide Less, Decimal;
    var keys := Keys(prefix, times);
    forall i | 0 <= i < |keys| ensures Owned(prefix + "/", keys[i]) {
      assert keys[i] == prefix + "/" + (Decimal(times[i].0) + "." + Decimal(times[i].1));
    }
    forall i, j | 0 <= i < j < |times|
      ensures Less(keys[i], keys[j]) <==>
              times[i].0 < times[j].0 || (times[i].0 == times[j].0 && Less(Decimal(times[i].1), Decimal(times[j].1)))
    {
      KeysAcrossSeconds(prefix, times[i].0, times[i].1, times[j].0, times[j].1);
    }
  }

  /**
   A later write of the same index does not supersede the earlier one when the clock goes from 9 to 10
   microseconds.
   */
  lemma LaterKeyCanBeLess(prefix: string, sec: nat, idx: string, a: Blob, b: Blob)
    ensures var glob, early, late := prefix + "/", Key(prefix, sec, 9), Key(prefix, sec, 10);
            var rows := AddState(AddState([], glob, early, idx, a, 3), glob, late, idx, b, 1);
            rows == [Row(early, idx, a, 3), Row(late, idx, b, 1)] && !Unique(rows, glob)
  {
    var glob, early, late := prefix + "/", Key(prefix, sec, 9), Key(prefix, sec, 10);
    KeysWithinSecond(prefix, sec, 10, 9);
    assert Decimal(1) == "1" && Decimal(9) == "9" && Decimal(10) == Decimal(1) + ['0'];
    assert Less(late, early);
    LessIsAsymmetric(late, early);
    LessIsIrreflexive(early);
    LessIsIrreflexive(late);
    assert glob <= early && glob <= late;
    var one := AddState([], glob, early, idx, a, 3);
    assert one == [Row(early, idx, a, 3)];
    var rows := AddState(one, glob, late, idx, b, 1);
    assert rows[0] == Row(early, idx, a, 3) && rows[1] == Row(late, idx, b, 1);
  }

  // ---------- The store and its clients ----------

  class Database {
    var rows: seq<Row>

    constructor ()
      ensures rows == []
    {
      rows := [];
    }
  }

  class StoreClient {
    const db: Database
    const prefix: string
    const keyGlob: string       // what comes before the `*`
    var order: bool

    /** `store_open` */
    constructor (db: Database, login: string, letter: char)
      ensures this.db == db && prefix == login + "/" + [letter] && keyGlob == prefix + "/" && !order
    {
      this.db := db;
      prefix := login + "/" + [letter];
      keyGlob := login + "/" + [letter] + "/";
      order := false;
    }

    method StoreOrder(val: bool)
      modifies this`order
      ensures order == val
    {
      order := val;
    }

    method StoreObsolete(key: string, idx: string)
      modifies db
      ensures db.rows == Obsolete(old(db.rows), keyGlob, key, idx)
      ensures Fresh(old(db.rows), keyGlob, key, idx) ==> View(db.rows, keyGlob) == View(old(db.rows), keyGlob) - {idx}
      ensures forall other | Apart(keyGlob, other) :: View(db.rows, other) == View(old(db.rows), other)
    {
      hide View;
      ghost var before := db.rows;
      db.rows := Obsolete(db.rows, keyGlob, key, idx);
      if Fresh(before, keyGlob, key, idx) {
        ObsoleteTakesOut(before, keyGlob, key, idx);
      }
      forall other | Apart(keyGlob, other) ensures View(db.rows, other) == View(before, other) {
        ObsoleteLeavesOthers(before, keyGlob, key, idx, other);
      }
    }

    method StoreAddState(key: string, idx: string, buf: Blob, state: int)
      modifies db
      ensures db.rows == AddState(old(db.rows), keyGlob, key, idx, buf, state)
    {
      db.rows := db.rows + [Row(key, idx, buf, state)];
      StoreObsolete(key, idx);
    }

    /** The blob of the next row, read with `parse`, or nothing. */
    method StoreFetchState<T>(start: Option<string>, parse: seq<Object> -> T, state: int) returns (bulk: Option<seq<T>>)
      ensures bulk == match Fetch(db.rows, keyGlob, state, start, order)
                      case None => None
                      case Some(r) => Some(Parsed(parse, Items(r.blob)))
    {
      var row := Fetch(db.rows, keyGlob, state, start, order);
      if row == None {
        return None;
      }
      var list := StoreBlobParse(row.value.blob, parse);
      return Some(list);
    }
  }

  /** Clients of one login with different letters never own the same key. */
  lemma LettersAreApart(login: string, a: char, b: char)
    requires a != b
    ensures Apart(login + "/" + [a] + "/", login + "/" + [b] + "/")
  {
    var x, y := login + "/" + [a] + "/", login + "/" + [b] + "/";
    assert x[|login| + 1] == a && y[|login| + 1] == b;
  }
}

/** The registrar's uplinks, reported to a client as differences from one update to the next. */
module Uplinks {
  import opened Text

  datatype Uplink = Uplink(uri: string, ok: int)

  // `op` is 1 for new, 2 for known and 0 for gone.
  datatype Report = Report(up: Uplink, op: int)

  const SIZE: nat := 16

  // The buckets of a hash table.
  type Buckets = seq<seq<Uplink>>

  function Bucket(hash: string -> nat, uri: string): (b: nat)
    ensures b < SIZE
  {
    hash(uri) % SIZE
  }

  // ---------- The operations on values ----------

  // `hash_lookup` with `apply_find`: any member of the bucket is taken for the URI. A null table has none.
  predicate Found(t: Option<Buckets>, hash: string -> nat, uri: string)
    requires t.Some? ==> |t.value| == SIZE
  {
    t.Some? && t.value[Bucket(hash, uri)] != []
  }

  function Append(t: Buckets, hash: string -> nat, up: Uplink): (r: Buckets)
    requires |t| == SIZE
    ensures |r| == SIZE
  {
    t[Bucket(hash, up.uri) := t[Bucket(hash, up.uri)] + [up]]
  }

  function NewTable(): (t: Buckets)
    ensures |t| == SIZE
  {
    seq(SIZE, _ => [])
  }

  function TableOf(list: seq<Uplink>, hash: string -> nat): (t: Buckets)
    ensures |t| == SIZE
  {
    if list == [] then NewTable() else Append(TableOf(list[..|list| - 1], hash), hash, list[|list| - 1])
  }

  function AddReport(old': Option<Buckets>, hash: string -> nat, up: Uplink): Report
    requires old'.Some? ==> |old'.value| == SIZE
  {
    Report(up, if Found(old', hash, up.uri) then 2 else 1)
  }

  function AddReports(old': Option<Buckets>, hash: string -> nat, list: seq<Uplink>): seq<Report>
    requires old'.Some? ==> |old'.value| == SIZE
  {
    if list == [] then [] else AddReports(old', hash, list[..|list| - 1]) + [AddReport(old', hash, list[|list| - 1])]
  }

  function RmReports(list: seq<Uplink>, hash: string -> nat, now: Buckets): seq<Report>
    requires |now| == SIZE
  {
    if list == [] then []
    else
      var up := list[|list| - 1];
      RmReports(list[..|list| - 1], hash, now) + if Found(Some(now), hash, up.uri) then [] else [Report(up, 0)]
  }

  lemma NoneGone(hash: string -> nat, now: Buckets)
    requires |now| == SIZE
    ensures RmReports([], hash, now) == []
  {
  }

  lemma OneGone(list: seq<Uplink>, up: Uplink, hash: string -> nat, now: Buckets)
    requires |now| == SIZE
    ensures RmReports(list + [up], hash, now) ==
            RmReports(list, hash, now) + if Found(Some(now), hash, up.uri) then [] else [Report(up, 0)]
  {
    assert (list + [up])[..|list|] == list;
  }

  // The order of `hash_apply`.
  function Members(t: Buckets): seq<Uplink> {
    if t == [] then [] else Members(t[..|t| - 1]) + t[|t| - 1]
  }

  function UpdateReports(old': Option<Buckets>, hash: string -> nat, list: seq<Uplink>): seq<Report>
    requires old'.Some? ==> |old'.value| == SIZE
  {
    AddReports(old', hash, list) + if old'.Some? then RmReports(Members(old'.value), hash, TableOf(list, hash)) else []
  }

  // ---------- The object ----------

  class TcUplinks {
    const hash: string -> nat
    var dataC: Option<Buckets>
    var urisC: Option<Buckets>
    var reports: seq<Report>      // what the handler was given

    ghost predicate Valid()
      reads this
    {
      (dataC.Some? ==> |dataC.value| == SIZE) && (urisC.Some? ==> |urisC.value| == SIZE)
    }

    constructor (hash: string -> nat)
      ensures Valid() && this.hash == hash && dataC == None && urisC == None && reports == []
    {
      this.hash := hash;
      dataC, urisC, reports := None, None, [];
    }

    method OneAdd(up: Uplink)
      requires Valid() && urisC.Some?
      modifies this`urisC, this`reports
      ensures Valid() && urisC == Some(Append(old(urisC.value), hash, up))
      ensures reports == old(reports) + [AddReport(dataC, hash, up)]
    {
      var found := Found(dataC, hash, up.uri);
      urisC := Some(Append(urisC.value, hash, up));
      if found {
        reports := reports + [Report(up, 2)];
      } else {
        reports := reports + [Report(up, 1)];
      }
    }

    method OneRm(up: Uplink)
      requires Valid() && urisC.Some?
      modifies this`reports
      ensures reports == old(reports) + if Found(urisC, hash, up.uri) then [] else [Report(up, 0)]
    {
      var found := Found(urisC, hash, up.uri);
      if !found {
        reports := reports + [Report(up, 0)];
      }
    }

    method Upd(upl: seq<Uplink>)
      requires Valid()
      modifies this`urisC, this`reports
      ensures Valid() && urisC == Some(TableOf(upl, hash))
      ensures reports == old(reports) + UpdateReports(dataC, hash, upl)
    {
      urisC := Some(NewTable());
      var i := 0;
      while i < |upl|
        invariant i <= |upl| && Valid() && urisC == Some(TableOf(upl[..i], hash))
        invariant reports == old(reports) + AddReports(dataC, hash, upl[..i])
      {
        OneAdd(upl[i]);
        assert upl[..i + 1][..i] == upl[..i];
        i := i + 1;
      }
      assert upl[..i] == upl;
      if dataC.Some? {
        ApplyRm();
      }
    }

    // `hash_apply(ups->data_c, apply_rm, ups)`
    method ApplyRm()
      requires Valid() && dataC.Some? && urisC.Some?
      modifies this`reports
      ensures reports == old(reports) + RmReports(Members(dataC.value), hash, urisC.value)
    {
      hide Found, Bucket, RmReports;
      var t := dataC.value;
      var b := 0;
      NoneGone(hash, urisC.value);
      while b < |t|
        invariant b <= |t|
        invariant reports == old(reports) + RmReports(Members(t[..b]), hash, urisC.value)
      {
        RmBucket(t[b], Members(t[..b]), old(reports));
        assert t[..b + 1][..b] == t[..b];
        b := b + 1;
      }
      assert t[..b] == t;
    }

    method RmBucket(bucket: seq<Uplink>, ghost done: seq<Uplink>, ghost before: seq<Report>)
      requires Valid() && urisC.Some? && reports == before + RmReports(done, hash, urisC.value)
      modifies this`reports
      ensures reports == before + RmReports(done + bucket, hash, urisC.value)
    {
      hide Found, Bucket, RmReports;
      var k := 0;
      assert done + bucket[..0] == done;
      while k < |bucket|
        invariant k <= |bucket|
        invariant reports == before + RmReports(done + bucket[..k], hash, urisC.value)
      {
        OneRm(bucket[k]);
        OneGone(done + bucket[..k], bucket[k], hash, urisC.value);
        assert done + bucket[..k] + [bucket[k]] == done + bucket[..k + 1];
        k := k + 1;
      }
      assert bucket[..k] == bucket;
    }

    /** `uplink_upd`: the handler is set. */
    method UplinkUpd(upl: seq<Uplink>)
      requires Valid()
      modifies this
      ensures Valid() && dataC == Some(TableOf(upl, hash)) && urisC == None
      ensures reports == old(reports) + UpdateReports(old(dataC), hash, upl)
    {
      Upd(upl);
      dataC := urisC;
      urisC := None;
    }
  }

  // ---------- The mirroring client ----------

  function Mirror(held: set<string>, reports: seq<Report>): set<string> {
    if reports == [] then held
    else
      var r, before := reports[|reports| - 1], Mirror(held, reports[..|reports| - 1]);
      if r.op == 0 then before - {r.up.uri} else before + {r.up.uri}
  }

  lemma {:induction false} MirrorConcat(held: set<string>, a: seq<Report>, b: seq<Report>)
    ensures Mirror(held, a + b) == Mirror(Mirror(held, a), b)
    decreases |b|
  {
    if b == [] {
      assert a + b == a;
    } else {
      assert (a + b)[..|a + b| - 1] == a + b[..|b| - 1];
      MirrorConcat(held, a, b[..|b| - 1]);
    }
  }

  function Uris(list: seq<Uplink>): set<string> {
    set k | 0 <= k < |list| :: list[k].uri
  }

  // Some URI of the list falls in the bucket of `uri`.
  predicate Covered(list: seq<Uplink>, hash: string -> nat, uri: string) {
    exists k :: 0 <= k < |list| && Bucket(hash, list[k].uri) == Bucket(hash, uri)
  }

  lemma {:induction false} FoundIsCovered(list: seq<Uplink>, hash: string -> nat, uri: string)
    ensures Found(Some(TableOf(list, hash)), hash, uri) <==> Covered(list, hash, uri)
  {
    if list != [] {
      var n := |list| - 1;
      FoundIsCovered(list[..n], hash, uri);
      CoveredBySnoc(list[..n], list[n], hash, uri);
      assert list == list[..n] + [list[n]];
    }
  }

  lemma CoveredBySnoc(list: seq<Uplink>, up: Uplink, hash: string -> nat, uri: string)
    ensures Covered(list + [up], hash, uri) <==> Covered(list, hash, uri) || Bucket(hash, up.uri) == Bucket(hash, uri)
  {
    var longer := list + [up];
    assert longer[|list|] == up;
    if Covered(list, hash, uri) {
      var k :| 0 <= k < |list| && Bucket(hash, list[k].uri) == Bucket(hash, uri);
      assert longer[k] == list[k];
    }
  }

  lemma {:induction false} MembersUpdate(t: Buckets, b: nat, up: Uplink)
    requires b < |t|
    ensures multiset(Members(t[b := t[b] + [up]])) == multiset(Members(t)) + multiset{up}
  {
    var n := |t| - 1;
    var u := t[b := t[b] + [up]];
    if b == n {
      assert u[..n] == t[..n];
    } else {
      assert u[..n] == t[..n][b := t[..n][b] + [up]];
      MembersUpdate(t[..n], b, up);
    }
  }

  lemma {:induction false} MembersOfEmpty(n: nat)
    ensures Members(seq(n, _ => [])) == []
  {
    if n > 0 {
      var t: Buckets := seq(n, _ => []);
      assert t[..n - 1] == seq(n - 1, _ => []);
      MembersOfEmpty(n - 1);
    }
  }

  lemma {:induction false} MembersOfTable(list: seq<Uplink>, hash: string -> nat)
    ensures multiset(Members(TableOf(list, hash))) == multiset(list)
  {
    if list == [] {
      MembersOfEmpty(SIZE);
    } else {
      var n := |list| - 1;
      MembersOfTable(list[..n], hash);
      MembersUpdate(TableOf(list[..n], hash), Bucket(hash, list[n].uri), list[n]);
      assert list == list[..n] + [list[n]];
    }
  }

  lemma UrisOfPermutation(a: seq<Uplink>, b: seq<Uplink>)
    requires multiset(a) == multiset(b)
    ensures Uris(a) == Uris(b)
  {
    forall u | u in Uris(a) ensures u in Uris(b) {
      var k :| 0 <= k < |a| && a[k].uri == u;
      assert a[k] in multiset(b);
    }
    forall u | u in Uris(b) ensures u in Uris(a) {
      var k :| 0 <= k < |b| && b[k].uri == u;
      assert b[k] in multiset(a);
    }
  }

  lemma {:induction false} MirrorAdds(held: set<string>, old': Option<Buckets>, hash: string -> nat, list: seq<Uplink>)
    requires old'.Some? ==> |old'.value| == SIZE
    ensures Mirror(held, AddReports(old', hash, list)) == held + Uris(list)
  {
    if list != [] {
      var n := |list| - 1;
      MirrorAdds(held, old', hash, list[..n]);
      var rs := AddReports(old', hash, list);
      assert rs[..|rs| - 1] == AddReports(old', hash, list[..n]);
      assert Uris(list) == Uris(list[..n]) + {list[n].uri};
    }
  }

  lemma {:induction false} MirrorRemoves(held: set<string>, gone: seq<Uplink>, hash: string -> nat, list: seq<Uplink>)
    ensures Mirror(held, RmReports(gone, hash, TableOf(list, hash))) ==
            set u | u in held && !(u in Uris(gone) && !Covered(list, hash, u))
  {
    if gone != [] {
      var n := |gone| - 1;
      MirrorRemoves(held, gone[..n], hash, list);
      FoundIsCovered(list, hash, gone[n].uri);
      var rs := RmReports(gone, hash, TableOf(list, hash));
      assert Uris(gone) == Uris(gone[..n]) + {gone[n].uri};
      if !Covered(list, hash, gone[n].uri) {
        assert rs[..|rs| - 1] == RmReports(gone[..n], hash, TableOf(list, hash));
      } else {
        assert rs == RmReports(gone[..n], hash, TableOf(list, hash));
      }
    }
  }

  // What the client holds after an update from `before` to `list`.
  lemma MirrorUpdate(held: set<string>, before: seq<Uplink>, list: seq<Uplink>, hash: string -> nat)
    ensures Mirror(held, UpdateReports(Some(TableOf(before, hash)), hash, list)) ==
            set u | u in held + Uris(list) && !(u in Uris(before) && !Covered(list, hash, u))
    ensures forall u | u in Uris(list) :: Covered(list, hash, u)
  {
    var old' := TableOf(before, hash);
    MirrorAdds(held, Some(old'), hash, list);
    MirrorRemoves(held + Uris(list), Members(old'), hash, list);
    MirrorConcat(held, AddReports(Some(old'), hash, list), RmReports(Members(old'), hash, TableOf(list, hash)));
    MembersOfTable(before, hash);
    UrisOfPermutation(Members(old'), before);
  }

  /**
   A client that holds the last list holds exactly the next one unless a URI that left shares a bucket with one
   that is there.
   */
  lemma MirrorIsExactIff(before: seq<Uplink>, list: seq<Uplink>, hash: string -> nat)
    ensures Mirror(Uris(before), UpdateReports(Some(TableOf(before, hash)), hash, list)) == Uris(list) <==>
            forall u | u in Uris(before) && u !in Uris(list) :: !Covered(list, hash, u)
  {
    MirrorUpdate(Uris(before), before, list, hash);
    var after := Mirror(Uris(before), UpdateReports(Some(TableOf(before, hash)), hash, list));
    if forall u | u in Uris(before) && u !in Uris(list) :: !Covered(list, hash, u) {
      assert after == Uris(list);
    } else {
      var u :| u in Uris(before) && u !in Uris(list) && Covered(list, hash, u);
      assert u in after;
    }
  }

  // The client after any number of updates, starting with nothing known.
  function Client(updates: seq<seq<Uplink>>, hash: string -> nat): set<string> {
    if updates == [] then {}
    else
      var n := |updates| - 1;
      Mirror(Client(updates[..n], hash),
             UpdateReports(if n == 0 then None else Some(TableOf(updates[n - 1], hash)), hash, updates[n]))
  }

  predicate NoCollision(updates: seq<seq<Uplink>>, hash: string -> nat) {
    forall i, j, u, v | 0 <= i < |updates| && 0 <= j < |updates| && u in Uris(updates[i]) && v in Uris(updates[j]) ::
      Bucket(hash, u) == Bucket(hash, v) ==> u == v
  }

  lemma CoveredWithoutCollision(updates: seq<seq<Uplink>>, hash: string -> nat, i: nat, j: nat, u: string)
    requires NoCollision(updates, hash) && i < |updates| && j < |updates| && u in Uris(updates[i])
    ensures Covered(updates[j], hash, u) ==> u in Uris(updates[j])
  {
    if Covered(updates[j], hash, u) {
      var k :| 0 <= k < |updates[j]| && Bucket(hash, updates[j][k].uri) == Bucket(hash, u);
      assert updates[j][k].uri in Uris(updates[j]);
    }
  }

  /** After any updates the client holds at least the latest list, and exactly that when no two URIs share a bucket. */
  lemma {:induction false} ClientMirrors(updates: seq<seq<Uplink>>, hash: string -> nat)
    requires updates != []
    ensures Uris(updates[|updates| - 1]) <= Client(updates, hash)
    ensures NoCollision(updates, hash) ==> Client(updates, hash) == Uris(updates[|updates| - 1])
  {
    hide Mirror, UpdateReports, TableOf, Covered, Uris;
    var n := |updates| - 1;
    if n == 0 {
      FirstUpdate(updates[0], hash);
    } else {
      ClientMirrors(updates[..n], hash);
      NextUpdate(Client(updates[..n], hash), updates, hash);
    }
  }

  lemma FirstUpdate(list: seq<Uplink>, hash: string -> nat)
    ensures Mirror({}, UpdateReports(None, hash, list)) == Uris(list)
  {
    hide Mirror, AddReports, Uris;
    MirrorAdds({}, None, hash, list);
    assert AddReports(None, hash, list) + [] == AddReports(None, hash, list);
  }

  lemma NextUpdate(held: set<string>, updates: seq<seq<Uplink>>, hash: string -> nat)
    requires |updates| >= 2
    ensures var n := |updates| - 1;
            var after := Mirror(held, UpdateReports(Some(TableOf(updates[n - 1], hash)), hash, updates[n]));
            && Uris(updates[n]) <= after
            && (NoCollision(updates, hash) ==> NoCollision(updates[..n], hash))
            && (NoCollision(updates, hash) && held == Uris(updates[n - 1]) ==> after == Uris(updates[n]))
  {
    hide Mirror, UpdateReports, TableOf, Covered, Uris;
    var n := |updates| - 1;
    MirrorUpdate(held, updates[n - 1], updates[n], hash);
    if NoCollision(updates, hash) {
      forall u | u in Uris(updates[n - 1]) ensures Covered(updates[n], hash, u) ==> u in Uris(updates[n]) {
        CoveredWithoutCollision(updates, hash, n - 1, n, u);
      }
    }
  }

  // ---------- Exactly when the client is in step ----------

  // Update `i` is the last to list `u`, and the next one covers its bucket: it is not reported as gone, then or later.
  predicate Missed(updates: seq<seq<Uplink>>, hash: string -> nat, i: nat, u: string) {
    && i + 1 < |updates| && u in Uris(updates[i])
    && (forall j | i < j < |updates| :: u !in Uris(updates[j]))
    && Covered(updates[i + 1], hash, u)
  }

  lemma {:induction false} ClientHolds(updates: seq<seq<Uplink>>, hash: string -> nat, u: string)
    requires updates != []
    ensures u in Client(updates, hash) <==>
            u in Uris(updates[|updates| - 1]) || exists i :: 0 <= i < |updates| && Missed(updates, hash, i, u)
  {
    hide Mirror, UpdateReports, TableOf, Covered, Uris;
    var n := |updates| - 1;
    if n == 0 {
      FirstUpdate(updates[0], hash);
    } else {
      var before := updates[..n];
      ClientHolds(before, hash, u);
      MirrorUpdate(Client(before, hash), updates[n - 1], updates[n], hash);
      assert before[n - 1] == updates[n - 1];
      forall i | 0 <= i < n - 1
        ensures Missed(updates, hash, i, u) <==> Missed(before, hash, i, u) && u !in Uris(updates[n])
      {
        OneMoreUpdate(updates, hash, i, u);
      }
      assert !Missed(updates, hash, n, u) && !Missed(before, hash, n - 1, u);
      if u in Client(updates, hash) && u !in Uris(updates[n]) {
        if i :| 0 <= i < n && Missed(before, hash, i, u) {
          assert Missed(updates, hash, i, u);
        } else {
          assert Missed(updates, hash, n - 1, u);
        }
      }
      if i :| 0 <= i < |updates| && Missed(updates, hash, i, u) {
        if i < n - 1 {
          assert Missed(before, hash, i, u) && u !in Uris(updates[n - 1]);
        } else {
          LatestIsHeld(before, hash, u);
        }
      }
    }
  }

  lemma OneMoreUpdate(updates: seq<seq<Uplink>>, hash: string -> nat, i: nat, u: string)
    requires i + 2 < |updates|
    ensures var n := |updates| - 1;
            Missed(updates, hash, i, u) <==> Missed(updates[..n], hash, i, u) && u !in Uris(updates[n])
  {
    hide Covered, Uris;
    var n := |updates| - 1;
    assert forall j | 0 <= j < n :: updates[..n][j] == updates[j];
  }

  lemma LatestIsHeld(updates: seq<seq<Uplink>>, hash: string -> nat, u: string)
    requires updates != [] && u in Uris(updates[|updates| - 1])
    ensures u in Client(updates, hash)
  {
    hide Client, Uris;
    ClientMirrors(updates, hash);
  }

  /**
   The client holds exactly the latest list unless a URI was missed, and what was missed stays until it is listed
   again.
   */
  lemma ClientIsExactIff(updates: seq<seq<Uplink>>, hash: string -> nat)
    requires updates != []
    ensures Client(updates, hash) == Uris(updates[|updates| - 1]) <==>
            forall i, u | 0 <= i < |updates| && u in Uris(updates[i]) :: !Missed(updates, hash, i, u)
  {
    hide Client, Uris, Covered;
    var latest := Uris(updates[|updates| - 1]);
    if forall i, u | 0 <= i < |updates| && u in Uris(updates[i]) :: !Missed(updates, hash, i, u) {
      forall u ensures u in Client(updates, hash) <==> u in latest {
        ClientHolds(updates, hash, u);
      }
    } else {
      var i, u :| 0 <= i < |updates| && u in Uris(updates[i]) && Missed(updates, hash, i, u);
      ClientHolds(updates, hash, u);
      assert u in Client(updates, hash) && u !in latest;
    }
  }

  // ---------- What is reported ----------

  function Ups(reports: seq<Report>): (ups: seq<Uplink>)
    ensures |ups| == |reports| && forall k | 0 <= k < |reports| :: ups[k] == reports[k].up
  {
    seq(|reports|, k requires 0 <= k < |reports| => reports[k].up)
  }

  // The list the client was told of last, if any, has a URI in this bucket.
  predicate Known(before: Option<seq<Uplink>>, hash: string -> nat, uri: string) {
    before.Some? && Covered(before.value, hash, uri)
  }

  function TableBefore(before: Option<seq<Uplink>>, hash: string -> nat): (t: Option<Buckets>)
    ensures t.Some? ==> |t.value| == SIZE
  {
    if before.Some? then Some(TableOf(before.value, hash)) else None
  }

  lemma {:induction false} AddReportAt(before: Option<seq<Uplink>>, hash: string -> nat, list: seq<Uplink>, k: nat)
    requires k < |list|
    ensures |AddReports(TableBefore(before, hash), hash, list)| == |list|
    ensures AddReports(TableBefore(before, hash), hash, list)[k] ==
            Report(list[k], if Known(before, hash, list[k].uri) then 2 else 1)
  {
    hide Covered, TableOf, Bucket;
    var n := |list| - 1;
    AddReportsLength(before, hash, list[..n]);
    if k < n {
      AddReportAt(before, hash, list[..n], k);
    } else if before.Some? {
      FoundIsCovered(before.value, hash, list[n].uri);
    }
  }

  lemma {:induction false} AddReportsLength(before: Option<seq<Uplink>>, hash: string -> nat, list: seq<Uplink>)
    ensures |AddReports(TableBefore(before, hash), hash, list)| == |list|
  {
    hide AddReport;
    if list != [] {
      AddReportsLength(before, hash, list[..|list| - 1]);
    }
  }

  lemma UpsAppend(reports: seq<Report>, r: Report)
    ensures Ups(reports + [r]) == Ups(reports) + [r.up]
  {
  }

  lemma {:induction false} RmReportsAre(gone: seq<Uplink>, hash: string -> nat, list: seq<Uplink>, u: Uplink)
    ensures var rs := RmReports(gone, hash, TableOf(list, hash));
            && (forall k | 0 <= k < |rs| :: rs[k].op == 0)
            && multiset(Ups(rs))[u] == if Covered(list, hash, u.uri) then 0 else multiset(gone)[u]
  {
    hide Covered, TableOf, Found, Bucket, RmReports, Ups;
    var now := TableOf(list, hash);
    if gone == [] {
      NoneGone(hash, now);
      assert Ups([]) == [];
    } else {
      var n := |gone| - 1;
      var before := RmReports(gone[..n], hash, now);
      RmReportsAre(gone[..n], hash, list, u);
      FoundIsCovered(list, hash, gone[n].uri);
      assert gone == gone[..n] + [gone[n]];
      OneGone(gone[..n], gone[n], hash, now);
      UpsAppend(before, Report(gone[n], 0));
      assert before + [] == before;
    }
  }

  /**
   The reports of an update: first each uplink of the list as it is, as known (2) if the list before had a URI in
   its bucket and as new (1) otherwise, so all as new at first; then, as gone (0), the uplinks of the list before,
   each as often as it was there, whose bucket no URI of the list is in.
   */
  lemma ReportsAre(before: Option<seq<Uplink>>, hash: string -> nat, list: seq<Uplink>)
    ensures var rs := UpdateReports(TableBefore(before, hash), hash, list);
            && |rs| >= |list|
            && (forall k | 0 <= k < |list| ::
                  rs[k] == Report(list[k], if Known(before, hash, list[k].uri) then 2 else 1))
            && (forall k | |list| <= k < |rs| :: rs[k].op == 0)
            && (before.None? ==> |rs| == |list|)
            && (before.Some? ==>
                  forall u :: multiset(Ups(rs[|list|..]))[u] ==
                              if Covered(list, hash, u.uri) then 0 else multiset(before.value)[u])
  {
    hide Covered, TableOf, AddReports, RmReports, Known, Members;
    var adds := AddReports(TableBefore(before, hash), hash, list);
    var rs := UpdateReports(TableBefore(before, hash), hash, list);
    AddReportsLength(before, hash, list);
    forall k | 0 <= k < |list| ensures adds[k] == Report(list[k], if Known(before, hash, list[k].uri) then 2 else 1) {
      AddReportAt(before, hash, list, k);
    }
    if before.Some? {
      var gone := Members(TableOf(before.value, hash));
      MembersOfTable(before.value, hash);
      var rms := RmReports(gone, hash, TableOf(list, hash));
      assert rs[|list|..] == rms;
      forall u ensures (forall k | 0 <= k < |rms| :: rms[k].op == 0) &&
                       multiset(Ups(rms))[u] == if Covered(list, hash, u.uri) then 0 else multiset(before.value)[u] {
        RmReportsAre(gone, hash, list, u);
      }
      RmReportsAre(gone, hash, list, Uplink("", 0));
    }
  }
}

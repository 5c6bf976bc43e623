/** The contact list: cut into bundles on its own nodes, one row for each bundle, and paged back. */
module Contacts {
  import opened Text
  import opened Codec
  import opened Store

  const BUNDLE_SIZE: nat := 30

  // ---------- Ordering ----------

  // A C string as `s[n]` sees it, with its terminator.
  function CharAt(s: CString, n: nat): char
    requires n <= |s|
  {
    if n == |s| then '\0' else s[n]
  }

  lemma NoNul(s: CString)
    ensures forall k | 0 <= k < |s| :: s[k] != '\0'
  {
    assert forall k | 0 <= k < |s| :: s[k] in s;
  }

  lemma LessFrom(a: CString, b: CString, n: nat)
    requires n <= |a| && n <= |b| && CharAt(a, n) != CharAt(b, n)
    ensures Less(a[n..], b[n..]) <==> CharAt(a, n) < CharAt(b, n)
  {
    NoNul(a);
    NoNul(b);
  }

  /** The handler of `list_sort`: a strict comparison of the names. */
  method SortHandler(name1: CString, name2: CString) returns (before: bool)
    ensures before <==> Less(name1, name2)
  {
    NoNul(name1);
    NoNul(name2);
    var n := 0;
    var c1, c2 := CharAt(name1, 0), CharAt(name2, 0);
    while c1 == c2 && c1 != '\0' && c2 != '\0'
      invariant n <= |name1| && n <= |name2| && c1 == CharAt(name1, n) && c2 == CharAt(name2, n)
      invariant Less(name1, name2) <==> Less(name1[n..], name2[n..])
      decreases |name1| - n
    {
      n := n + 1;
      c1, c2 := CharAt(name1, n), CharAt(name2, n);
    }
    if c1 != c2 {
      LessFrom(name1, name2, n);
    } else {
      assert n == |name1| == |name2|;
    }
    before := c1 < c2;
  }

  // ---------- The linked list ----------

  class Le {
    var prev: Le?
    var next: Le?
    var list: ListHead?
    var data: ContactEl

    constructor (data: ContactEl)
      ensures prev == null && next == null && list == null && this.data == data
    {
      prev, next, list := null, null, null;
      this.data := data;
    }
  }

  class ListHead {
    var head: Le?
    var tail: Le?

    constructor ()
      ensures head == null && tail == null
    {
      head, tail := null, null;
    }
  }

  // The links of element `i` within `s[lo..hi]`.
  ghost predicate Linked(s: seq<Le>, i: nat, lo: nat, hi: nat)
    requires lo <= i < hi <= |s|
    reads s
  {
    && s[i].next == (if i + 1 < hi then s[i + 1] else null)
    && s[i].prev == (if i > lo then s[i - 1] else null)
  }

  // `s` is the forward chain from `h`, and its `prev` links run back along it.
  ghost predicate Chain(h: Le?, s: seq<Le>)
    reads s
  {
    && h == (if s == [] then null else s[0])
    && (forall i: nat | i < |s| :: Linked(s, i, 0, |s|))
    && Distinct(s)
  }

  ghost predicate Distinct(s: seq<Le>) {
    forall i, j | 0 <= i < j < |s| :: s[i] != s[j]
  }

  ghost predicate Holds(s: seq<Le>, list: seq<ContactEl>)
    reads s
  {
    |s| == |list| && forall i | 0 <= i < |s| :: s[i].data == list[i]
  }

  // Nodes keep their data and stay in their list.
  twostate predicate Kept(s: seq<Le>)
    reads s
  {
    forall le | le in s :: le.data == old(le.data) && le.list == old(le.list)
  }

  // The cut `do_slice` makes before `le`, into the list `new`.
  method DoSlice(le: Le, rest: ListHead, ghost ct: ListHead, ghost s: seq<Le>, ghost k: nat)
    requires 0 < k < |s| && s[k] == le && Chain(s[0], s) && le.list == ct && rest != ct
    modifies s, ct, rest
    ensures Chain(s[0], s[..k]) && Chain(rest.head, s[k..]) && Kept(s)
  {
    assert Linked(s, k, 0, |s|);
    var orig := le.list;
    rest.tail := orig.tail;
    orig.tail := le.prev;
    rest.head := le;
    le.prev.next := null;
    le.prev := null;
    forall i: nat | i < k ensures Linked(s, i, 0, k) {
      assert old(Linked(s, i, 0, |s|)) && s[i] != s[k];
    }
    forall i: nat | k <= i < |s| ensures Linked(s, i, k, |s|) {
      assert old(Linked(s, i, 0, |s|)) && s[i] != s[k - 1];
      assert i > k ==> s[i] != s[k];
    }
    LinksMakeChain(s, 0, k);
    LinksMakeChain(s, k, |s|);
    assert s[0..k] == s[..k] && s[k..|s|] == s[k..];
  }

  lemma LinksMakeChain(s: seq<Le>, lo: nat, hi: nat)
    requires lo < hi <= |s| && forall i: nat | lo <= i < hi :: Linked(s, i, lo, hi)
    requires Distinct(s)
    ensures Chain(s[lo], s[lo..hi])
  {
    var c := s[lo..hi];
    forall i: nat | i < |c| ensures Linked(c, i, 0, |c|) {
      assert Linked(s, lo + i, lo, hi) && c[i] == s[lo + i];
      assert i + 1 < |c| ==> c[i + 1] == s[lo + i + 1];
      assert i > 0 ==> c[i - 1] == s[lo + i - 1];
    }
  }

  // Where `list_slice` cuts a list of `n` elements.
  function CutAt(n: nat, limit: nat): nat
    requires limit >= 2
  {
    if n >= limit then limit - 1 else n
  }

  /** Leaves at most `limit - 1` elements in `orig` and moves the others to `rest`; true if there were any. */
  method ListSlice(orig: ListHead, rest: ListHead, limit: nat, ghost ct: ListHead,
                   ghost s: seq<Le>, ghost list: seq<ContactEl>) returns (any: bool)
    requires limit >= 2 && orig != rest && orig != ct && rest != ct && Chain(orig.head, s) && Holds(s, list)
    requires forall le | le in s :: le.list == ct
    modifies rest, ct, s
    ensures any <==> s != []
    ensures Chain(orig.head, s[..CutAt(|s|, limit)]) && Chain(rest.head, s[CutAt(|s|, limit)..])
    ensures Distinct(s) && Holds(s, list) && forall le | le in s :: le.list == ct
  {
    any := orig.head != null;
    rest.head := null;
    rest.tail := null;
    var left := limit;
    var le := orig.head;
    ghost var i := 0;
    while le != null
      invariant i <= |s| && left + i == limit && left > 0
      invariant le == if i < |s| then s[i] else null
      invariant Chain(orig.head, s) && rest.head == null && Kept(s)
      decreases |s| - i
    {
      var cur := le;
      assert Linked(s, i, 0, |s|);
      le := le.next;
      left := left - 1;
      if left == 0 {
        DoSlice(cur, rest, ct, s, i);
        return;
      }
      i := i + 1;
    }
    assert s[..|s|] == s && s[|s|..] == [];
  }

  // ---------- What becomes of a bundle ----------

  predicate AllListed(list: seq<ContactEl>) {
    forall c | c in list :: Listed(c)
  }

  /** `list_count` */
  method ListCount(l: ListHead, ghost s: seq<Le>) returns (n: nat)
    requires Chain(l.head, s)
    ensures n == |s|
  {
    n := 0;
    var le := l.head;
    while le != null
      invariant n <= |s| && le == if n < |s| then s[n] else null
      decreases |s| - n
    {
      assert Linked(s, n, 0, |s|);
      le := le.next;
      n := n + 1;
    }
  }

  lemma ContactObjectsAppend(list: seq<ContactEl>, c: ContactEl)
    requires AllListed(list + [c])
    ensures AllListed(list)
    ensures ContactObjects(list + [c]) == ContactObjects(list) + [ContactObject(c)]
  {
    assert forall x | x in list :: x in list + [c];
    assert c in list + [c];
    assert (list + [c])[..|list|] == list;
  }

  /** The blob of a list of contacts. */
  method WriteContacts(l: ListHead, ghost s: seq<Le>, ghost list: seq<ContactEl>) returns (blob: Blob)
    requires Chain(l.head, s) && Holds(s, list) && AllListed(list)
    ensures blob == ContactBlob(list)
  {
    hide Listed, ContactObject, Tokens, ContactObjects;
    var pk := new Packer();
    var count := ListCount(l, s);
    pk.PackArray(count);
    var le := l.head;
    ghost var i := 0;
    PrefixListed(list);
    while le != null
      invariant i <= |s| && le == (if i < |s| then s[i] else null)
      invariant fresh(pk) && Chain(l.head, s) && Holds(s, list)
      invariant pk.tokens == [Array(|s|)] + TokensOf(ContactObjects(list[..i]))
      decreases |s| - i
    {
      assert Linked(s, i, 0, |s|) && list[i] == le.data;
      WriteContactEl(pk, le.data);
      assert list[..i + 1] == list[..i] + [list[i]];
      ContactObjectsAppend(list[..i], list[i]);
      TokensOfAppend(ContactObjects(list[..i]), ContactObject(list[i]));
      le := le.next;
      i := i + 1;
    }
    assert list[..i] == list;
    BlobTokens(ContactObjects(list));
    blob := pk.tokens;
  }

  lemma PrefixListed(list: seq<ContactEl>)
    requires AllListed(list)
    ensures forall n | 0 <= n <= |list| :: AllListed(list[..n])
    ensures forall n | 0 <= n < |list| :: Listed(list[n])
  {
    forall n, c | 0 <= n <= |list| && c in list[..n] ensures Listed(c) {
      assert c in list;
    }
    forall n | 0 <= n < |list| ensures Listed(list[n]) {
      assert list[n] in list;
    }
  }

  lemma BlobTokens(items: seq<Object>)
    ensures Tokens(ArrayObj(items)) == [Array(|items|)] + TokensOf(items)
  {
  }

  /** `list_flush`: unlinks every element. */
  method ListFlush(l: ListHead, ghost s: seq<Le>)
    requires Chain(l.head, s)
    modifies l, s
    ensures l.head == null && l.tail == null
  {
    var le := l.head;
    ghost var i := 0;
    while le != null
      invariant i <= |s| && le == if i < |s| then s[i] else null
      invariant forall j: nat | i <= j < |s| :: s[j].next == old(s[j].next)
      decreases |s| - i
    {
      assert old(Linked(s, i, 0, |s|));
      var next := le.next;
      le.list := null;
      le.prev, le.next := null, null;
      le := next;
      i := i + 1;
    }
    l.head, l.tail := null, null;
  }

  // ---------- Bundles ----------

  function Bundles(list: seq<ContactEl>): (bundles: seq<seq<ContactEl>>)
    ensures forall b | b in bundles :: b != []
    decreases |list|
  {
    if list == [] then []
    else [list[..CutAt(|list|, BUNDLE_SIZE)]] + Bundles(list[CutAt(|list|, BUNDLE_SIZE)..])
  }

  function Flatten(bundles: seq<seq<ContactEl>>): seq<ContactEl> {
    if bundles == [] then [] else bundles[0] + Flatten(bundles[1..])
  }

  /** The bundles are the list in order, 29 contacts in each but the last. */
  lemma {:induction false} BundlesPartition(list: seq<ContactEl>)
    ensures var bundles := Bundles(list);
            && Flatten(bundles) == list
            && (forall k | 0 <= k < |bundles| :: 1 <= |bundles[k]| <= 29)
            && (forall k | 0 <= k < |bundles| - 1 :: |bundles[k]| == 29)
    decreases |list|
  {
    if list != [] {
      var n := CutAt(|list|, BUNDLE_SIZE);
      BundlesPartition(list[n..]);
      assert Bundles(list)[1..] == Bundles(list[n..]);
      assert list[..n] + list[n..] == list;
    }
  }

  // One row for each bundle, indexed by the login of its first contact.
  function StoreBundles(rows: seq<Row>, glob: string, keys: seq<string>, bundles: seq<seq<ContactEl>>): seq<Row>
    requires Storable(keys, bundles)
    decreases |bundles|
  {
    if bundles == [] then rows
    else
      assert bundles[0] != [] && AllListed(bundles[0]);
      assert bundles[0][0] in bundles[0] && Listed(bundles[0][0]);
      StoreBundles(AddState(rows, glob, keys[0], bundles[0][0].login.value, ContactBlob(bundles[0]), 1),
                   glob, keys[1..], bundles[1..])
  }

  predicate Storable(keys: seq<string>, bundles: seq<seq<ContactEl>>) {
    |keys| >= |bundles| && forall k | 0 <= k < |bundles| :: bundles[k] != [] && AllListed(bundles[k])
  }

  lemma {:induction false} BundlesAreListed(list: seq<ContactEl>)
    requires AllListed(list)
    ensures forall k | 0 <= k < |Bundles(list)| :: Bundles(list)[k] != [] && AllListed(Bundles(list)[k])
    decreases |list|
  {
    if list != [] {
      var n := CutAt(|list|, BUNDLE_SIZE);
      assert forall c | c in list[..n] :: c in list;
      assert forall c | c in list[n..] :: c in list;
      BundlesAreListed(list[n..]);
    }
  }

  // ---------- Fetching on values ----------

  datatype Fetched = FromNetwork | FromStore(bulk: Option<seq<ContactEl>>)

  function FetchNext(rows: seq<Row>, glob: string, cur: Option<string>): (Option<string>, Fetched) {
    match Fetch(rows, glob, 1, cur, true)
    case None => (cur, if cur == None then FromNetwork else FromStore(None))
    case Some(r) =>
      var list := ContactsParsed(r.blob);
      (if list == [] then cur else list[0].login, FromStore(Some(list)))
  }

  // The list `l` is the chain `s`, its contacts are `list`, and its nodes belong to `ct`.
  ghost predicate Ready(l: ListHead, s: seq<Le>, list: seq<ContactEl>, ct: ListHead)
    reads l, s
  {
    Chain(l.head, s) && Holds(s, list) && AllListed(list) && forall le | le in s :: le.list == ct
  }

  // ---------- The object ----------

  class ContactBook {
    const store: StoreClient
    var curIdx: Option<string>
    var handled: bool                     // a handler is set
    ghost var shown: seq<seq<ContactEl>>  // what the handler was given

    /** `contacts_alloc` */
    constructor (store: StoreClient, handled: bool)
      requires !store.order
      modifies store
      ensures this.store == store && curIdx == None && shown == [] && this.handled == handled && store.order
    {
      this.store := store;
      this.handled := handled;
      curIdx := None;
      shown := [];
      new;
      store.StoreOrder(true);
    }

    /** `store_contacts`, which refuses an empty list; `key` is what `store_key` returns now. */
    method StoreContacts(l: ListHead, key: string, ghost s: seq<Le>, ghost list: seq<ContactEl>) returns (ok: bool)
      requires Chain(l.head, s) && Holds(s, list) && AllListed(list)
      modifies store.db
      ensures ok <==> list != []
      ensures !ok ==> store.db.rows == old(store.db.rows)
      ensures ok ==>
                && Listed(list[0])
                && store.db.rows == AddState(old(store.db.rows), store.keyGlob, key, list[0].login.value,
                    ContactBlob(list), 1)
    {
      if l.head == null {
        return false;
      }
      assert list[0] in list;
      var blob := WriteContacts(l, s, list);
      store.StoreAddState(key, l.head.data.login.value, blob, 1);
      return true;
    }

    /**
     `http_ct_done`, with the downloaded list, parsed and put in order, when the code is 200. Any other code
     changes nothing. `keys` are what `store_key` returns from now on.
     */
    method HttpCtDone(code: int, ct: ListHead, keys: seq<string>, ghost s: seq<Le>, ghost list: seq<ContactEl>)
      requires code == 200 ==>
                 Ready(ct, s, list, ct) && |keys| >= |Bundles(list)|
      modifies this`shown, this`curIdx, store.db, ct, s
      ensures code != 200 ==> store.db.rows == old(store.db.rows) && shown == old(shown) && curIdx == old(curIdx)
      ensures code == 200 ==>
                && Storable(keys, Bundles(list))
                && store.db.rows == StoreBundles(old(store.db.rows), store.keyGlob, keys, Bundles(list))
                && shown == (if handled && list != [] then old(shown) + [Bundles(list)[0]] else old(shown))
                && curIdx == (if handled && list != [] then list[0].login else old(curIdx))
    {
      hide Storable, StoreBundles, Ready;
      if code == 200 {
        StoreDownload(ct, keys, s, list);
      }
    }

    // Stores the list bundle by bundle and shows the first bundle.
    method StoreDownload(ct: ListHead, keys: seq<string>, ghost s: seq<Le>, ghost list: seq<ContactEl>)
      requires Ready(ct, s, list, ct) && |keys| >= |Bundles(list)|
      modifies this`shown, this`curIdx, store.db, ct, s
      ensures Storable(keys, Bundles(list))
      ensures store.db.rows == StoreBundles(old(store.db.rows), store.keyGlob, keys, Bundles(list))
      ensures shown == if handled && list != [] then old(shown) + [Bundles(list)[0]] else old(shown)
      ensures curIdx == if handled && list != [] then list[0].login else old(curIdx)
    {
      hide Storable, Store.AddState, ContactBlob, CutAt, Listed, Chain, Distinct, Linked, Holds, Bundles, StoreBundles,
        Ready, AllListed;
      ReadyIsListed(ct, s, list, ct);
      BundlesAreListed(list);
      StorableIs(keys, Bundles(list));
      var head := new ListHead();
      var tail := new ListHead();
      head.head, head.tail := ct.head, ct.tail;
      SameHead(ct, head, s, list, ct);
      var cb := true;
      var i := 0;
      ghost var nodes, rest := s, list;
      assert keys[0..] == keys;
      NoBundles();
      while true
        invariant fresh(head) && fresh(tail) && head != tail
        invariant Ready(head, nodes, rest, ct) && forall k | 0 <= k < |nodes| :: nodes[k] in s
        invariant i <= |keys| && Storable(keys[i..], Bundles(rest))
        invariant StoreBundles(store.db.rows, store.keyGlob, keys[i..], Bundles(rest)) ==
                  StoreBundles(old(store.db.rows), store.keyGlob, keys, Bundles(list))
        invariant cb == (rest == list) && (!cb ==> list != [] && Bundles(list) != [])
        invariant cb || !handled ==> shown == old(shown) && curIdx == old(curIdx)
        invariant !cb && handled ==> shown == old(shown) + [Bundles(list)[0]] && curIdx == list[0].login
        decreases |rest|
      {
        ReadyIsListed(head, nodes, rest, ct);
        if rest == [] {
          NoMoreStored(store.db.rows, store.keyGlob, keys[i..]);
        } else {
          NextBundle(rest);
          NextStore(store.db.rows, store.keyGlob, keys[i..], rest);
          assert keys[i..][1..] == keys[i + 1..];
        }
        var any := TakeBundle(head, tail, ct, keys, i, cb, nodes, rest);
        if !any {
          break;
        }
        cb := false;
        i := i + 1;
        ghost var n := CutAt(|rest|, BUNDLE_SIZE);
        nodes, rest := nodes[n..], rest[n..];
      }
    }

    // One turn of the loop: slices off a bundle, shows it if it is the first, stores it and drops it.
    method TakeBundle(head: ListHead, tail: ListHead, ghost ct: ListHead, keys: seq<string>, i: nat, cb: bool,
                      ghost s: seq<Le>, ghost list: seq<ContactEl>) returns (any: bool)
      requires head != tail && head != ct && tail != ct && Ready(head, s, list, ct)
      requires list != [] ==> i < |keys|
      modifies this`shown, this`curIdx, store.db, head, tail, ct, s
      ensures any <==> list != []
      ensures !any ==> store.db.rows == old(store.db.rows) && shown == old(shown) && curIdx == old(curIdx)
      ensures any ==>
                var n := CutAt(|list|, BUNDLE_SIZE);
                && 0 < n <= |list| == |s| && Listed(list[0]) && AllListed(list[..n])
                && store.db.rows == AddState(old(store.db.rows), store.keyGlob, keys[i], list[0].login.value,
                    ContactBlob(list[..n]), 1)
                && shown == (if cb && handled then old(shown) + [list[..n]] else old(shown))
                && curIdx == (if cb && handled then list[0].login else old(curIdx))
                && Ready(head, s[n..], list[n..], ct)
    {
      hide Store.AddState, ContactBlob, Listed, Chain, Linked;
      ghost var n := CutAt(|list|, BUNDLE_SIZE);
      any := ListSlice(head, tail, BUNDLE_SIZE, ct, s, list);
      if !any {
        return;
      }
      NextBundle(list);
      if cb && handled {
        shown := shown + [list[..n]];
        CurIdx(head, s[..n], list[..n]);
      }
      StoreBundle(head, tail, keys[i], s, list, n);
      forall le | le in s[n..] ensures le !in s[..n] {
      }
    }

    // Stores the first `n` elements, drops them, and goes on with the others.
    method StoreBundle(head: ListHead, tail: ListHead, key: string,
                       ghost s: seq<Le>, ghost list: seq<ContactEl>, ghost n: nat)
      requires 0 < n <= |s| && Chain(head.head, s[..n]) && Chain(tail.head, s[n..]) && head != tail
      requires Holds(s, list) && AllListed(list[..n]) && Distinct(s)
      modifies store.db, head, set le | le in s[..n]
      ensures Listed(list[0])
      ensures store.db.rows == AddState(old(store.db.rows), store.keyGlob, key, list[0].login.value,
          ContactBlob(list[..n]), 1)
      ensures Chain(head.head, s[n..]) && Holds(s[n..], list[n..])
    {
      hide ContactBlob, Store.AddState, Listed;
      forall i | 0 <= i < n ensures s[i] == s[..n][i] && list[i] == list[..n][i] {
      }
      var ok := StoreContacts(head, key, s[..n], list[..n]);
      ListFlush(head, s[..n]);
      head.head, head.tail := tail.head, tail.tail;
      forall le | le in s[n..] ensures le !in s[..n] {
      }
    }

    /** `contacts_fetch`: the next bundle of the store, or a request to the network when there was never one. */
    method ContactsFetch() returns (f: Fetched)
      requires store.order
      modifies this`curIdx
      ensures (curIdx, f) == FetchNext(store.db.rows, store.keyGlob, old(curIdx))
    {
      var bulk := store.StoreFetchState(curIdx, CtelParse, 1);
      if bulk == None && curIdx == None {
        return FromNetwork;
      }
      if bulk.Some? && bulk.value != [] {
        curIdx := bulk.value[0].login;
      }
      return FromStore(bulk);
    }

    /** `cur_idx` */
    method CurIdx(l: ListHead, ghost s: seq<Le>, ghost list: seq<ContactEl>)
      requires Chain(l.head, s) && Holds(s, list)
      modifies this`curIdx
      ensures curIdx == if list != [] then list[0].login else old(curIdx)
    {
      if l.head != null {
        curIdx := l.head.data.login;
      }
    }
  }

  lemma ReadyIsListed(l: ListHead, s: seq<Le>, list: seq<ContactEl>, ct: ListHead)
    requires Ready(l, s, list, ct)
    ensures |s| == |list| && AllListed(list)
  {
  }

  lemma SameHead(l: ListHead, m: ListHead, s: seq<Le>, list: seq<ContactEl>, ct: ListHead)
    requires Ready(l, s, list, ct) && m.head == l.head
    ensures Ready(m, s, list, ct)
  {
  }

  lemma NoBundles()
    ensures Bundles([]) == []
  {
  }

  lemma NoMoreStored(rows: seq<Row>, glob: string, keys: seq<string>)
    ensures Storable(keys, []) && StoreBundles(rows, glob, keys, []) == rows
  {
  }

  lemma StorableIs(keys: seq<string>, bundles: seq<seq<ContactEl>>)
    requires |keys| >= |bundles| && forall k | 0 <= k < |bundles| :: bundles[k] != [] && AllListed(bundles[k])
    ensures Storable(keys, bundles)
  {
  }

  lemma NextStore(rows: seq<Row>, glob: string, keys: seq<string>, rest: seq<ContactEl>)
    requires rest != [] && AllListed(rest) && Storable(keys, Bundles(rest))
    ensures var n := CutAt(|rest|, BUNDLE_SIZE);
            && 0 < n <= |rest| && AllListed(rest[..n]) && Listed(rest[0]) && keys != []
            && Storable(keys[1..], Bundles(rest[n..]))
            && StoreBundles(rows, glob, keys, Bundles(rest)) ==
               StoreBundles(AddState(rows, glob, keys[0], rest[0].login.value, ContactBlob(rest[..n]), 1),
                            glob, keys[1..], Bundles(rest[n..]))
  {
    hide ContactBlob, Store.AddState, Listed;
    NextBundle(rest);
    var n := CutAt(|rest|, BUNDLE_SIZE);
    assert Bundles(rest)[1..] == Bundles(rest[n..]) && Bundles(rest)[0] == rest[..n];
    assert rest[0] in rest;
  }

  lemma NextBundle(rest: seq<ContactEl>)
    requires rest != [] && AllListed(rest)
    ensures var n := CutAt(|rest|, BUNDLE_SIZE);
            && 0 < n && Bundles(rest) == [rest[..n]] + Bundles(rest[n..]) && AllListed(rest[..n])
            && AllListed(rest[n..])
  {
    var n := CutAt(|rest|, BUNDLE_SIZE);
    assert forall c | c in rest[..n] :: c in rest;
    assert forall c | c in rest[n..] :: c in rest;
  }

  // ---------- What a download may hold ----------

  // A login, a name and a phone, none of them empty.
  predicate Complete(args: seq<Object>) {
    |args| >= 3 && forall k | 0 <= k < 3 :: args[k].RawObj? && args[k].r != ""
  }

  /**
   An empty string of a downloaded contact is read as a null pointer, which the sort or the writer would follow.
   The parsed list has none exactly if every contact of the download is complete.
   */
  lemma DownloadIsListedExactly(items: seq<Object>)
    ensures AllListed(Parsed(CtelParse, items)) <==> forall i | 0 <= i < |items| :: Complete(Args(items[i]))
  {
    var list := Parsed(CtelParse, items);
    forall i | 0 <= i < |items| ensures Listed(list[i]) <==> Complete(Args(items[i])) {
      var args := Args(items[i]);
      assert list[i] == CtelParse(args);
      if |args| >= 3 {
        assert Complete(args) ==> args[0].RawObj? && args[1].RawObj? && args[2].RawObj?;
      }
    }
    if forall i | 0 <= i < |items| :: Complete(Args(items[i])) {
      forall c | c in list ensures Listed(c) {
        var i :| 0 <= i < |list| && list[i] == c;
        assert Complete(Args(items[i]));
      }
    } else {
      var i :| 0 <= i < |items| && !Complete(Args(items[i]));
      assert list[i] in list;
    }
  }

  // ---------- What is in the store after a download ----------

  // No string of the contact is empty.
  predicate SolidContact(c: ContactEl) {
    c.login != Some("") && c.name != Some("") && c.phone != Some("")
  }

  predicate Whole(b: seq<ContactEl>) {
    b != [] && AllListed(b) && forall c | c in b :: SolidContact(c)
  }

  function LoginOf(b: seq<ContactEl>): string
    requires Whole(b)
  {
    assert b[0] in b;
    b[0].login.value
  }

  // A row is a bundle that reads back under the row's index.
  predicate RowOk(r: Row) {
    var list := ContactsParsed(r.blob);
    r.curnt == 1 && list != [] && list[0].login == Some(r.idx)
  }

  predicate StoreOk(rows: seq<Row>, glob: string) {
    Unique(rows, glob) && forall r | r in rows && Current(r, glob) :: RowOk(r)
  }

  lemma WholeReadsBack(b: seq<ContactEl>)
    requires Whole(b)
    ensures ContactsParsed(ContactBlob(b)) == b && b[0].login == Some(LoginOf(b))
  {
    hide ContactsParsed, ContactBlob;
    ContactRoundTrip(b);
  }

  lemma StoringKeepsOk(rows: seq<Row>, glob: string, key: string, b: seq<ContactEl>)
    requires StoreOk(rows, glob) && Whole(b) && Fresh(rows, glob, key, LoginOf(b))
    ensures var after := AddState(rows, glob, key, LoginOf(b), ContactBlob(b), 1);
            && StoreOk(after, glob)
            && View(after, glob) == View(rows, glob)[LoginOf(b) := (1, ContactBlob(b))]
  {
    hide ContactsParsed, ContactBlob, Unique, View;
    var idx := LoginOf(b);
    AddUpdatesView(rows, glob, key, idx, ContactBlob(b), 1);
    AddKeepsUniqueIffFresh(rows, glob, key, idx, ContactBlob(b), 1);
    AddIsObsoleteThenInsert(rows, glob, key, idx, ContactBlob(b), 1);
    WholeReadsBack(b);
    var after := AddState(rows, glob, key, idx, ContactBlob(b), 1);
    forall r | r in after && Current(r, glob) ensures RowOk(r) {
      var i :| 0 <= i < |after| && after[i] == r;
      if i < |rows| {
        assert rows[i] in rows && after[i] == Obsoleted(rows[i], glob, key, idx);
      }
    }
  }

  predicate DistinctLogins(bundles: seq<seq<ContactEl>>) {
    forall k, l | 0 <= k < l < |bundles| && bundles[k] != [] && bundles[l] != [] ::
      bundles[k][0].login != bundles[l][0].login
  }

  lemma WholeIsStorable(keys: seq<string>, bundles: seq<seq<ContactEl>>)
    requires |keys| >= |bundles| && forall k | 0 <= k < |bundles| :: Whole(bundles[k])
    ensures Storable(keys, bundles)
  {
  }

  /** Every bundle ends up as the current row of its first login. */
  lemma {:induction false} BundlesAreStored(rows: seq<Row>, glob: string, keys: seq<string>,
                                            bundles: seq<seq<ContactEl>>)
    requires StoreOk(rows, glob) && KeysAhead(rows, glob, keys) && |keys| >= |bundles|
    requires (forall k | 0 <= k < |bundles| :: Whole(bundles[k]))
    requires forall k, l | 0 <= k < l < |bundles| :: LoginOf(bundles[k]) != LoginOf(bundles[l])
    ensures Storable(keys, bundles)
    ensures var after := StoreBundles(rows, glob, keys, bundles);
            && StoreOk(after, glob)
            && (forall k | 0 <= k < |bundles| ::
                  LoginOf(bundles[k]) in View(after, glob) &&
                  View(after, glob)[LoginOf(bundles[k])] == (1, ContactBlob(bundles[k])))
            && (forall idx | idx in View(after, glob) ::
                  (exists k :: 0 <= k < |bundles| && LoginOf(bundles[k]) == idx) ||
                  (idx in View(rows, glob) && View(after, glob)[idx] == View(rows, glob)[idx]))
            && (forall idx | idx in View(rows, glob) && (forall k | 0 <= k < |bundles| :: LoginOf(bundles[k]) != idx) ::
                  idx in View(after, glob) && View(after, glob)[idx] == View(rows, glob)[idx])
    decreases |bundles|
  {
    hide ContactBlob, Unique, View, StoreOk, KeysAhead, AddState, Whole;
    WholeIsStorable(keys, bundles);
    if bundles != [] {
      var b, rest := bundles[0], bundles[1..];
      var next := AddState(rows, glob, keys[0], LoginOf(b), ContactBlob(b), 1);
      KeysStayAhead(rows, glob, keys, LoginOf(b), ContactBlob(b), 1);
      StoringKeepsOk(rows, glob, keys[0], b);
      forall k | 0 <= k < |rest| ensures rest[k] == bundles[k + 1] && Whole(rest[k]) {
      }
      BundlesAreStored(next, glob, keys[1..], rest);
    }
  }

  // ---------- Paging through the contacts ----------

  lemma FetchIsNextPage(rows: seq<Row>, glob: string, cur: Option<string>, r: Row)
    requires StoreOk(rows, glob) && Fetch(rows, glob, 1, cur, true) == Some(r)
    ensures FetchNext(rows, glob, cur) == (Some(r.idx), FromStore(Some(ContactsParsed(r.blob))))
    ensures MatchCount(rows, glob, 1, Some(r.idx), true) < MatchCount(rows, glob, 1, cur, true)
  {
    hide ContactsParsed, Unique;
    assert RowOk(r);
    PastRow(rows, glob, 1, cur, true, r);
  }

  /**
   The network is asked exactly from a null cursor with no current row. A fetch that finds a row moves the cursor
   strictly past where it was; one that finds none gives nothing and leaves it.
   */
  lemma FetchAtTheEnd(rows: seq<Row>, glob: string, cur: Option<string>)
    requires StoreOk(rows, glob)
    ensures var (next, f) := FetchNext(rows, glob, cur);
            && (f == FromNetwork <==> cur == None && forall r | r in rows :: !Current(r, glob))
            && (f == FromStore(None) <==>
                cur.Some? && forall r | r in rows && Current(r, glob) :: !Less(cur.value, r.idx))
            && (f == FromNetwork || f == FromStore(None) ==> next == cur)
            && (f != FromNetwork && f != FromStore(None) ==> next.Some? && (cur.Some? ==> Less(cur.value, next.value)))
  {
    hide ContactsParsed, Unique;
    var i := FetchBelow(rows, glob, 1, cur, true, |rows|);
    forall r | r in rows && Current(r, glob) ensures r.curnt == 1 {
      assert RowOk(r);
    }
    if i == -1 {
      forall r | r in rows && Current(r, glob) ensures !Matches(r, glob, 1, cur, true) {
        var k :| 0 <= k < |rows| && rows[k] == r;
      }
    } else {
      FetchIsNextPage(rows, glob, cur, rows[i]);
      assert rows[i] in rows && Current(rows[i], glob);
    }
  }

  // What repeated calls of `contacts_fetch` hand out from the store.
  ghost function HandedOut(rows: seq<Row>, glob: string, cur: Option<string>): seq<seq<ContactEl>>
    requires StoreOk(rows, glob)
    decreases MatchCount(rows, glob, 1, cur, true)
  {
    match Fetch(rows, glob, 1, cur, true)
    case None => []
    case Some(r) =>
      FetchIsNextPage(rows, glob, cur, r);
      var (next, f) := FetchNext(rows, glob, cur);
      [f.bulk.value] + HandedOut(rows, glob, next)
  }

  /** Repeated fetches page through the rows after the cursor, in order of first login. */
  lemma {:induction false} HandedOutIsPaging(rows: seq<Row>, glob: string, cur: Option<string>)
    requires StoreOk(rows, glob)
    ensures var out, pages := HandedOut(rows, glob, cur), Pages(rows, glob, 1, cur, true);
            |out| == |pages| && forall k | 0 <= k < |out| :: out[k] == ContactsParsed(pages[k].blob)
    decreases MatchCount(rows, glob, 1, cur, true)
  {
    hide ContactsParsed, StoreOk, FetchNext, Fetch;
    match Fetch(rows, glob, 1, cur, true)
    case None =>
    case Some(r) =>
      FetchIsNextPage(rows, glob, cur, r);
      HandedOutIsPaging(rows, glob, Some(r.idx));
  }

  // A stored bundle is handed out exactly when its first login is past the cursor.
  lemma BundleIsHandedOut(rows: seq<Row>, glob: string, cur: Option<string>, b: seq<ContactEl>)
    requires StoreOk(rows, glob) && Whole(b)
    requires LoginOf(b) in View(rows, glob) && View(rows, glob)[LoginOf(b)] == (1, ContactBlob(b))
    ensures b in HandedOut(rows, glob, cur) <==> cur == None || Less(cur.value, LoginOf(b))
  {
    hide ContactsParsed, ContactBlob, HandedOut, Pages, View, Unique, Fetch;
    var out, pages := HandedOut(rows, glob, cur), Pages(rows, glob, 1, cur, true);
    HandedOutIsPaging(rows, glob, cur);
    PagesAreTheMatches(rows, glob, 1, cur, true);
    WholeReadsBack(b);
    var r := RowOfView(rows, glob, LoginOf(b));
    if cur == None || Less(cur.value, LoginOf(b)) {
      assert Matches(r, glob, 1, cur, true) && r in pages;
      var k :| 0 <= k < |pages| && pages[k] == r;
      assert out[k] == b;
    }
    if b in out {
      var k :| 0 <= k < |out| && out[k] == b;
      var p := pages[k];
      assert p in pages && RowOk(p);
      assert p.idx == LoginOf(b);
    }
  }

  /**
   After a download into an empty store: from a null cursor every bundle is handed out. The download itself
   leaves the cursor at the first bundle, and then a bundle is handed out exactly when its first login is
   past the first bundle's, because bundles are cut in order of name and paged in order of login.
   */
  lemma DownloadedBundlesAreHandedOut(glob: string, keys: seq<string>, list: seq<ContactEl>, k: nat)
    requires (forall c | c in list :: Listed(c) && SolidContact(c)) && k < |Bundles(list)| <= |keys|
    requires KeysAhead([], glob, keys) && DistinctLogins(Bundles(list))
    ensures Storable(keys, Bundles(list)) && StoreOk(StoreBundles([], glob, keys, Bundles(list)), glob)
    ensures var rows, b := StoreBundles([], glob, keys, Bundles(list)), Bundles(list);
            && Whole(b[0]) && Whole(b[k])
            && b[k] in HandedOut(rows, glob, None)
            && (b[k] in HandedOut(rows, glob, Some(LoginOf(b[0]))) <==> Less(LoginOf(b[0]), LoginOf(b[k])))
  {
    hide ContactsParsed, ContactBlob, HandedOut, View, Unique, Bundles, StoreBundles, StoreOk;
    EmptyIsOk(glob);
    BundlesAreWhole(list);
    LoginsDiffer(Bundles(list));
    BundlesAreStored([], glob, keys, Bundles(list));
    var rows, b := StoreBundles([], glob, keys, Bundles(list)), Bundles(list);
    BundleIsHandedOut(rows, glob, None, b[k]);
    BundleIsHandedOut(rows, glob, Some(LoginOf(b[0])), b[k]);
  }

  lemma LoginsDiffer(bundles: seq<seq<ContactEl>>)
    requires (forall k | 0 <= k < |bundles| :: Whole(bundles[k])) && DistinctLogins(bundles)
    ensures forall k, l | 0 <= k < l < |bundles| :: LoginOf(bundles[k]) != LoginOf(bundles[l])
  {
    forall k | 0 <= k < |bundles| ensures bundles[k][0].login == Some(LoginOf(bundles[k])) {
      assert bundles[k][0] in bundles[k];
    }
  }

  lemma EmptyIsOk(glob: string)
    ensures StoreOk([], glob)
  {
  }

  lemma {:induction false} BundlesAreWhole(list: seq<ContactEl>)
    requires forall c | c in list :: Listed(c) && SolidContact(c)
    ensures forall i | 0 <= i < |Bundles(list)| :: Whole(Bundles(list)[i])
    decreases |list|
  {
    if list != [] {
      var n := CutAt(|list|, BUNDLE_SIZE);
      assert forall c | c in list[..n] :: c in list;
      assert forall c | c in list[n..] :: c in list;
      BundlesAreWhole(list[n..]);
    }
  }
}

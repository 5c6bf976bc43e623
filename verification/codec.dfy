/** The msgpack blobs of the store, token by token: what the writers append, and what the parsers read back. */
module Codec {
  import opened Text

  datatype Token = Array(n: nat) | Int(i: int) | Raw(r: string)

  type Blob = seq<Token>

  // What `msgpack_unpack_next` returns.
  datatype Object = ArrayObj(items: seq<Object>) | IntObj(i: int) | RawObj(r: string)

  function Tokens(o: Object): (t: Blob)
    ensures |t| >= 1
  {
    match o
    case ArrayObj(items) => [Array(|items|)] + TokensOf(items)
    case IntObj(i) => [Int(i)]
    case RawObj(r) => [Raw(r)]
  }

  function TokensOf(items: seq<Object>): Blob {
    if items == [] then [] else Tokens(items[0]) + TokensOf(items[1..])
  }

  // ---------- Unpacking ----------

  function Unpack(t: Blob): (r: Option<(Object, Blob)>)
    ensures r.Some? ==> |r.value.1| < |t|
    decreases |t|, 0
  {
    if t == [] then None
    else
      match t[0]
      case Int(i) => Some((IntObj(i), t[1..]))
      case Raw(r) => Some((RawObj(r), t[1..]))
      case Array(n) =>
        match UnpackMany(n, t[1..])
        case None => None
        case Some((items, rest)) => Some((ArrayObj(items), rest))
  }

  function UnpackMany(n: nat, t: Blob): (r: Option<(seq<Object>, Blob)>)
    ensures r.Some? ==> |r.value.1| <= |t|
    decreases |t|, 1
  {
    if n == 0 then Some(([], t))
    else
      match Unpack(t)
      case None => None
      case Some((first, rest)) =>
        match UnpackMany(n - 1, rest)
        case None => None
        case Some((items, end)) => Some(([first] + items, end))
  }

  lemma UnpackNone(t: Blob)
    ensures UnpackMany(0, t) == Some(([], t))
  {
  }

  lemma UnpackManyOnce(n: nat, t: Blob, first: Object, items: seq<Object>, mid: Blob, end: Blob)
    requires n == |items| + 1 && Unpack(t) == Some((first, mid)) && UnpackMany(n - 1, mid) == Some((items, end))
    ensures UnpackMany(n, t) == Some(([first] + items, end))
  {
    hide Unpack;
  }

  lemma {:induction false} UnpackTokens(o: Object, rest: Blob)
    ensures Unpack(Tokens(o) + rest) == Some((o, rest))
    decreases o, 1, 0
  {
    match o
    case IntObj(i) => assert ([Int(i)] + rest)[1..] == rest;
    case RawObj(r) => assert ([Raw(r)] + rest)[1..] == rest;
    case ArrayObj(items) =>
      assert (Tokens(o) + rest)[1..] == TokensOf(items) + rest;
      UnpackTokensOf(o, items, rest);
  }

  lemma {:induction false} UnpackTokensOf(o: Object, items: seq<Object>, rest: Blob)
    requires forall x | x in items :: x < o
    ensures UnpackMany(|items|, TokensOf(items) + rest) == Some((items, rest))
    decreases o, 0, |items|
  {
    hide Unpack, UnpackMany;
    if items == [] {
      assert TokensOf(items) + rest == rest;
      UnpackNone(rest);
    } else {
      var t := TokensOf(items) + rest;
      assert items[0] in items && forall x | x in items[1..] :: x in items;
      assert t == Tokens(items[0]) + (TokensOf(items[1..]) + rest);
      UnpackTokens(items[0], TokensOf(items[1..]) + rest);
      UnpackTokensOf(o, items[1..], rest);
      UnpackManyOnce(|items|, t, items[0], items[1..], TokensOf(items[1..]) + rest, rest);
      assert [items[0]] + items[1..] == items;
    }
  }

  // ---------- The parse loop of a stored blob ----------

  function IntAt(args: seq<Object>, k: nat): int {
    if k < |args| && args[k].IntObj? then args[k].i else 0
  }

  function BeforeNul(s: string): (c: CString) {
    if s == [] || s[0] == '\0' then [] else [s[0]] + BeforeNul(s[1..])
  }

  // `get_str`: an empty string is read as a null pointer.
  function StringAt(args: seq<Object>, k: nat): Option<CString> {
    if k < |args| && args[k].RawObj? && args[k].r != "" then Some(BeforeNul(args[k].r)) else None
  }

  lemma {:induction false} NulFree(c: CString)
    ensures BeforeNul(c) == c
  {
    if c != [] {
      assert c[0] in c && forall x | x in c[1..] :: x in c;
      NulFree(c[1..]);
    }
  }

  function Args(o: Object): seq<Object> {
    if o.ArrayObj? then o.items else []
  }

  function Items(blob: Blob): seq<Object> {
    match Unpack(blob)
    case None => []
    case Some((o, _)) => Args(o)
  }

  function Parsed<T>(parse: seq<Object> -> T, items: seq<Object>): (list: seq<T>)
    ensures |list| == |items|
    ensures forall k | 0 <= k < |items| :: list[k] == parse(Args(items[k]))
  {
    seq(|items|, k requires 0 <= k < |items| => parse(Args(items[k])))
  }

  /** Reads the records of a blob in order. */
  method StoreBlobParse<T>(blob: Blob, parse: seq<Object> -> T) returns (list: seq<T>)
    ensures list == Parsed(parse, Items(blob))
  {
    list := [];
    var unpacked := Unpack(blob);
    if unpacked == None {
      return;
    }
    var items := Args(unpacked.value.0);
    var i := 0;
    while i < |items|
      invariant i <= |items|
      invariant list == Parsed(parse, items)[..i]
    {
      list := list + [parse(Args(items[i]))];
      i := i + 1;
    }
  }

  // ---------- The packer ----------

  class Packer {
    var tokens: Blob

    constructor ()
      ensures tokens == []
    {
      tokens := [];
    }

    method PackArray(n: nat)
      modifies this
      ensures tokens == old(tokens) + [Array(n)]
    {
      tokens := tokens + [Array(n)];
    }

    method PackInt(i: int)
      modifies this
      ensures tokens == old(tokens) + [Int(i)]
    {
      tokens := tokens + [Int(i)];
    }

    method PushString(c: string)
      modifies this
      ensures tokens == old(tokens) + [Raw(c)]
    {
      tokens := tokens + [Raw(c)];
    }
  }

  // ---------- History events ----------

  datatype HistEl = HistEl(event: int, time: int, key: Option<CString>, uri: Option<CString>, name: Option<CString>)

  function HelParse(args: seq<Object>): HistEl {
    HistEl(IntAt(args, 0), IntAt(args, 1), StringAt(args, 2), StringAt(args, 3), StringAt(args, 4))
  }

  // The writer follows the key and the URI, so they are not null; a null name is written as "".
  predicate Writable(h: HistEl) {
    h.key.Some? && h.uri.Some?
  }

  function HistObject(h: HistEl): Object
    requires Writable(h)
  {
    ArrayObj([IntObj(h.event), IntObj(h.time), RawObj(h.key.value), RawObj(h.uri.value),
              RawObj(if h.name.Some? then h.name.value else "")])
  }

  function HistObjects(list: seq<HistEl>): (objects: seq<Object>)
    requires forall h | h in list :: Writable(h)
    ensures |objects| == |list|
  {
    if list == [] then [] else HistObjects(list[..|list| - 1]) + [HistObject(list[|list| - 1])]
  }

  function HistBlob(list: seq<HistEl>): Blob
    requires forall h | h in list :: Writable(h)
  {
    Tokens(ArrayObj(HistObjects(list)))
  }

  function HistParsed(blob: Blob): seq<HistEl> {
    Parsed(HelParse, Items(blob))
  }

  lemma {:induction false} TokensOfAppend(items: seq<Object>, o: Object)
    ensures TokensOf(items + [o]) == TokensOf(items) + Tokens(o)
  {
    if items == [] {
      assert TokensOf([o]) == Tokens(o) + TokensOf([]);
      assert items + [o] == [o];
    } else {
      assert (items + [o])[1..] == items[1..] + [o];
      TokensOfAppend(items[1..], o);
    }
  }

  method WriteHistoryEl(pk: Packer, h: HistEl)
    requires Writable(h)
    modifies pk
    ensures pk.tokens == old(pk.tokens) + Tokens(HistObject(h))
  {
    pk.PackArray(5);
    pk.PackInt(h.event);
    pk.PackInt(h.time);
    pk.PushString(h.key.value);
    pk.PushString(h.uri.value);
    if h.name.Some? {
      pk.PushString(h.name.value);
    } else {
      pk.PushString("");
    }
    FiveFields(HistObject(h).items);
  }

  lemma FiveFields(items: seq<Object>)
    requires |items| == 5 && forall k | 0 <= k < 5 :: !items[k].ArrayObj?
    ensures TokensOf(items) == Tokens(items[0]) + Tokens(items[1]) + Tokens(items[2]) + Tokens(items[3]) +
        Tokens(items[4])
  {
    assert items[1..][1..] == items[2..] && items[2..][1..] == items[3..] && items[3..][1..] == items[4..]
        && items[4..][1..] == [];
    assert TokensOf(items[4..]) == Tokens(items[4]);
    assert TokensOf(items[3..]) == Tokens(items[3]) + Tokens(items[4]);
    assert TokensOf(items[2..]) == Tokens(items[2]) + TokensOf(items[3..]);
    assert TokensOf(items[1..]) == Tokens(items[1]) + TokensOf(items[2..]);
  }

  /** Writes a list of events into an empty packer. */
  method WriteHistory(list: seq<HistEl>) returns (blob: Blob)
    requires forall h | h in list :: Writable(h)
    ensures blob == HistBlob(list)
  {
    var pk := new Packer();
    pk.PackArray(|list|);
    var i := 0;
    while i < |list|
      invariant i <= |list| && fresh(pk)
      invariant pk.tokens == [Array(|list|)] + TokensOf(HistObjects(list[..i]))
    {
      WriteHistoryEl(pk, list[i]);
      assert list[..i + 1][..i] == list[..i];
      TokensOfAppend(HistObjects(list[..i]), HistObject(list[i]));
      i := i + 1;
    }
    assert list[..i] == list;
    blob := pk.tokens;
  }

  // How an event reads back: an empty string has become a null pointer.
  function NoEmpty(s: Option<CString>): Option<CString> {
    if s == Some("") then None else s
  }

  function ReadBack(h: HistEl): HistEl {
    h.(key := NoEmpty(h.key), uri := NoEmpty(h.uri), name := NoEmpty(h.name))
  }

  lemma {:induction false} HistObjectAt(list: seq<HistEl>, k: nat)
    requires k < |list| && forall h | h in list :: Writable(h)
    ensures HistObjects(list)[k] == HistObject(list[k])
  {
    if k < |list| - 1 {
      HistObjectAt(list[..|list| - 1], k);
    }
  }

  lemma HelParseInverts(h: HistEl)
    requires Writable(h)
    ensures HelParse(HistObject(h).items) == ReadBack(h)
  {
    NulFree(h.key.value);
    NulFree(h.uri.value);
    if h.name.Some? {
      NulFree(h.name.value);
    }
  }

  lemma BlobItems(items: seq<Object>)
    ensures Items(Tokens(ArrayObj(items))) == items
  {
    UnpackTokens(ArrayObj(items), []);
    assert Tokens(ArrayObj(items)) + [] == Tokens(ArrayObj(items));
  }

  /** Parsing what the writer wrote gives back every event in order, with empty strings read as null. */
  lemma HistRoundTrip(list: seq<HistEl>)
    requires forall h | h in list :: Writable(h)
    ensures |HistParsed(HistBlob(list))| == |list|
    ensures forall k | 0 <= k < |list| :: HistParsed(HistBlob(list))[k] == ReadBack(list[k])
  {
    BlobItems(HistObjects(list));
    forall k | 0 <= k < |list| ensures HistParsed(HistBlob(list))[k] == ReadBack(list[k]) {
      assert list[k] in list;
      HistObjectAt(list, k);
      HelParseInverts(list[k]);
    }
  }

  // No string of the event is empty.
  predicate Solid(h: HistEl) {
    h.key != Some("") && h.uri != Some("") && h.name != Some("")
  }

  lemma SolidSurvives(h: HistEl)
    ensures ReadBack(h) == h <==> Solid(h)
  {
    assert Solid(h) ==> ReadBack(h) == h;
    assert h.key == Some("") ==> ReadBack(h).key == None;
    assert h.uri == Some("") ==> ReadBack(h).uri == None;
    assert h.name == Some("") ==> ReadBack(h).name == None;
  }

  /** The list comes back unchanged exactly when it holds no empty string. */
  lemma HistRoundTripIsExact(list: seq<HistEl>)
    requires forall h | h in list :: Writable(h)
    ensures HistParsed(HistBlob(list)) == list <==> forall h | h in list :: Solid(h)
  {
    HistRoundTrip(list);
    if forall h | h in list :: Solid(h) {
      forall k | 0 <= k < |list| ensures HistParsed(HistBlob(list))[k] == list[k] {
        SolidSurvives(list[k]);
      }
    } else {
      var k :| 0 <= k < |list| && !Solid(list[k]);
      assert HistParsed(HistBlob(list))[k] == ReadBack(list[k]);
      SolidSurvives(list[k]);
    }
  }

  // ---------- Contacts ----------

  datatype ContactEl = ContactEl(login: Option<CString>, name: Option<CString>, phone: Option<CString>)

  function CtelParse(args: seq<Object>): ContactEl {
    ContactEl(StringAt(args, 0), StringAt(args, 1), StringAt(args, 2))
  }

  // The contact writer follows all three pointers.
  predicate Listed(c: ContactEl) {
    c.login.Some? && c.name.Some? && c.phone.Some?
  }

  function ContactObject(c: ContactEl): Object
    requires Listed(c)
  {
    ArrayObj([RawObj(c.login.value), RawObj(c.name.value), RawObj(c.phone.value)])
  }

  function ContactObjects(list: seq<ContactEl>): (objects: seq<Object>)
    requires forall c | c in list :: Listed(c)
    ensures |objects| == |list|
    ensures forall k | 0 <= k < |list| :: objects[k] == ContactObject(list[k])
  {
    if list == [] then [] else ContactObjects(list[..|list| - 1]) + [ContactObject(list[|list| - 1])]
  }

  function ContactBlob(list: seq<ContactEl>): Blob
    requires forall c | c in list :: Listed(c)
  {
    Tokens(ArrayObj(ContactObjects(list)))
  }

  function ContactsParsed(blob: Blob): seq<ContactEl> {
    Parsed(CtelParse, Items(blob))
  }

  method WriteContactEl(pk: Packer, c: ContactEl)
    requires Listed(c)
    modifies pk
    ensures pk.tokens == old(pk.tokens) + Tokens(ContactObject(c))
  {
    pk.PackArray(3);
    pk.PushString(c.login.value);
    pk.PushString(c.name.value);
    pk.PushString(c.phone.value);
    ThreeFields(ContactObject(c).items);
  }

  lemma ThreeFields(items: seq<Object>)
    requires |items| == 3 && forall k | 0 <= k < 3 :: !items[k].ArrayObj?
    ensures TokensOf(items) == Tokens(items[0]) + Tokens(items[1]) + Tokens(items[2])
  {
    assert items[1..][1..] == items[2..] && items[2..][1..] == [];
    assert TokensOf(items[2..]) == Tokens(items[2]);
    assert TokensOf(items[1..]) == Tokens(items[1]) + Tokens(items[2]);
  }

  /** A contact list comes back unchanged exactly when it holds no empty string. */
  lemma ContactRoundTrip(list: seq<ContactEl>)
    requires forall c | c in list :: Listed(c)
    ensures ContactsParsed(ContactBlob(list)) == list <==>
            forall c | c in list :: c.login != Some("") && c.name != Some("") && c.phone != Some("")
  {
    BlobItems(ContactObjects(list));
    forall k | 0 <= k < |list|
      ensures ContactsParsed(ContactBlob(list))[k] ==
              ContactEl(NoEmpty(list[k].login), NoEmpty(list[k].name), NoEmpty(list[k].phone))
    {
      assert list[k] in list;
      NulFree(list[k].login.value);
      NulFree(list[k].name.value);
      NulFree(list[k].phone.value);
    }
    if forall c | c in list :: c.login != Some("") && c.name != Some("") && c.phone != Some("") {
      assert ContactsParsed(ContactBlob(list)) == list;
    }
  }

  /** The tokens of an event and of a contact, field by field. */
  lemma ElTokens(h: HistEl, c: ContactEl)
    requires Writable(h) && Listed(c)
    ensures Tokens(HistObject(h)) ==
            [Array(5), Int(h.event), Int(h.time), Raw(h.key.value), Raw(h.uri.value),
             Raw(if h.name.Some? then h.name.value else "")]
    ensures Tokens(ContactObject(c)) == [Array(3), Raw(c.login.value), Raw(c.name.value), Raw(c.phone.value)]
  {
    FiveFields(HistObject(h).items);
    ThreeFields(ContactObject(c).items);
  }

  /** And the fields the parsers read them from. */
  lemma ElFields(event: int, time: int, a: CString, b: CString, c: CString)
    requires a != "" && b != "" && c != ""
    ensures HelParse([IntObj(event), IntObj(time), RawObj(a), RawObj(b), RawObj(c)]) ==
            HistEl(event, time, Some(a), Some(b), Some(c))
    ensures CtelParse([RawObj(a), RawObj(b), RawObj(c)]) == ContactEl(Some(a), Some(b), Some(c))
  {
    NulFree(a);
    NulFree(b);
    NulFree(c);
  }

  // ---------- Messages ----------

  // `user` is the address the message goes to; `idx` is what the row says its index is.
  datatype Msg = Msg(sec: int, usec: int, to: CString, text: string, idx: Option<CString>)

  function MsgObject(m: Msg, idx: CString): Object {
    ArrayObj([IntObj(m.sec), IntObj(m.usec), RawObj(m.to), RawObj(m.text), RawObj(idx)])
  }

  function MsgBlob(m: Msg, idx: CString): Blob {
    Tokens(ArrayObj([MsgObject(m, idx)]))
  }

  lemma MsgTokens(m: Msg, idx: CString)
    ensures MsgBlob(m, idx) == [Array(1), Array(5), Int(m.sec), Int(m.usec), Raw(m.to), Raw(m.text), Raw(idx)]
  {
    FiveFields(MsgObject(m, idx).items);
    assert [MsgObject(m, idx)][1..] == [];
    assert TokensOf([MsgObject(m, idx)]) == Tokens(MsgObject(m, idx)) + TokensOf([]);
  }

  // An absent text is an empty buffer; the address decodes to itself.
  function MsgParse(args: seq<Object>): Msg {
    var to := StringAt(args, 2);
    Msg(IntAt(args, 0), IntAt(args, 1), if to.Some? then to.value else "",
        if 3 < |args| && args[3].RawObj? then args[3].r else "", StringAt(args, 4))
  }

  function MsgsParsed(blob: Blob): seq<Msg> {
    Parsed(MsgParse, Items(blob))
  }

  lemma MsgRoundTrip(m: Msg, idx: CString)
    requires idx != ""
    ensures MsgsParsed(MsgBlob(m, idx)) == [m.(idx := Some(idx))]
  {
    BlobItems([MsgObject(m, idx)]);
    NulFree(m.to);
    NulFree(idx);
    assert MsgsParsed(MsgBlob(m, idx))[0] == MsgParse(MsgObject(m, idx).items);
  }
}

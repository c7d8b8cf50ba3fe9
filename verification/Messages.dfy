/**
 The wire message and its CBOR schema: one struct whose fields are keyed by small integers,
 empty ones left out. Text is kept as its UTF-8 bytes. An empty slice stands for an absent
 one where the schema omits empties; where it does not, absence is None.
 */
module Messages {
  import opened Basics
  import opened Cbor

  type int64 = i: int | -0x8000_0000_0000_0000 <= i < 0x8000_0000_0000_0000
  type uint16 = i: int | 0 <= i < 0x1_0000

  datatype RefInfo = RefInfo(name: seq<byte>, key: Option<seq<byte>>, createdAt: int64, user: seq<byte>)

  datatype DataEndpointRec = DataEndpointRec(id: Option<seq<byte>>, addrs: seq<seq<byte>>)

  datatype Msg = Msg(
    typ: int64,
    name: seq<byte>,
    root: seq<byte>,
    cas: bool,
    expectedOld: seq<byte>,
    record: seq<byte>,
    refs: seq<RefInfo>,
    keys: seq<Option<seq<byte>>>,
    data: seq<byte>,
    key: seq<byte>,
    code: seq<byte>,
    text: seq<byte>,
    current: seq<byte>,
    token: seq<byte>,
    dataConns: int64,
    dataPorts: seq<uint16>,
    dataEndpoints: seq<DataEndpointRec>,
    names: seq<seq<byte>>)

  const EMPTY: Msg := Msg(0, [], [], false, [], [], [], [], [], [], [], [], [], [], 0, [], [], [])

  // ---------- structs as maps ----------

  /** Field `i` of a struct has key `i`; absent fields have no entry. */
  function Entries(fields: seq<Option<Value>>, from: nat): seq<Value>
    requires from <= |fields|
    decreases |fields| - from
  {
    if from == |fields| then []
    else (if fields[from].Some? then [UInt(from), fields[from].value] else []) + Entries(fields, from + 1)
  }

  function Struct(fields: seq<Option<Value>>): Value { Map(Entries(fields, 0)) }

  /** The value under integer key `k`, as a decoder finds it. */
  function Lookup(flat: seq<Value>, k: nat): Option<Value> {
    if |flat| < 2 then None
    else if flat[0] == UInt(k) then Some(flat[1])
    else Lookup(flat[2..], k)
  }

  lemma {:induction false} LookupEntries(fields: seq<Option<Value>>, from: nat, k: nat)
    requires from <= |fields|
    ensures Lookup(Entries(fields, from), k) == if from <= k < |fields| then fields[k] else None
    decreases |fields| - from
  {
    if from < |fields| {
      LookupEntries(fields, from + 1, k);
      var rest := Entries(fields, from + 1);
      if fields[from].Some? {
        assert Entries(fields, from) == [UInt(from), fields[from].value] + rest;
        assert Entries(fields, from)[2..] == rest;
      } else {
        assert Entries(fields, from) == rest;
      }
    }
  }

  /** Keys go out in ascending order, each once: the canonical order for keys this small. */
  lemma {:induction false} EntriesAscend(fields: seq<Option<Value>>, from: nat)
    requires from <= |fields|
    ensures |Entries(fields, from)| % 2 == 0
    ensures forall i | 0 <= i < |Entries(fields, from)| && i % 2 == 0 ::
              Entries(fields, from)[i].UInt? && from <= Entries(fields, from)[i].n < |fields|
    ensures forall i, j | 0 <= i < j < |Entries(fields, from)| && i % 2 == 0 && j % 2 == 0 ::
              Entries(fields, from)[i].n < Entries(fields, from)[j].n
    decreases |fields| - from
  {
    if from < |fields| {
      var rest := Entries(fields, from + 1);
      EntriesAscend(fields, from + 1);
      if fields[from].Some? {
        var all := Entries(fields, from);
        assert forall i | 2 <= i < |all| :: all[i] == rest[i - 2];
      }
    }
  }

  lemma {:induction false} EntriesAll(fields: seq<Option<Value>>, from: nat, p: Value -> bool)
    requires from <= |fields| && forall k | 0 <= k < |fields| :: p(UInt(k))
    ensures (forall v | v in Entries(fields, from) :: p(v))
       <==> forall k | from <= k < |fields| && fields[k].Some? :: p(fields[k].value)
    decreases |fields| - from
  {
    if from < |fields| {
      EntriesAll(fields, from + 1, p);
      var rest, all := Entries(fields, from + 1), Entries(fields, from);
      if fields[from].Some? {
        assert all == [UInt(from), fields[from].value] + rest;
        assert forall v :: v in all <==> v == UInt(from) || v == fields[from].value || v in rest;
      } else {
        assert all == rest;
      }
    }
  }

  lemma {:induction false} EntriesCount(fields: seq<Option<Value>>, from: nat)
    requires from <= |fields|
    ensures |Entries(fields, from)| <= 2 * (|fields| - from)
    decreases |fields| - from
  {
    if from < |fields| {
      EntriesCount(fields, from + 1);
    }
  }

  lemma StructMembers(fields: seq<Option<Value>>)
    requires |fields| <= 24
    ensures Plain(Struct(fields)) <==> forall k | 0 <= k < |fields| && fields[k].Some? :: Plain(fields[k].value)
    ensures Acceptable(Struct(fields))
       <==> forall k | 0 <= k < |fields| && fields[k].Some? :: Acceptable(fields[k].value)
  {
    hide Entries;
    EntriesAll(fields, 0, Plain);
    EntriesAll(fields, 0, Acceptable);
    EntriesAscend(fields, 0);
    EntriesCount(fields, 0);
  }

  // ---------- field values ----------

  function IntValue(i: int64): Value { if i >= 0 then UInt(i) else NInt(-1 - i) }

  /** A slice that is not omitted when empty: nil is null. */
  function SliceValue(b: Option<seq<byte>>): Value { if b.Some? then Bytes(b.value) else Null }

  function OptBytes(b: seq<byte>): Option<Value> { if b == [] then None else Some(Bytes(b)) }
  function OptText(t: seq<byte>): Option<Value> { if t == [] then None else Some(Text(t)) }
  function OptInt(i: int64): Option<Value> { if i == 0 then None else Some(IntValue(i)) }
  function OptBool(b: bool): Option<Value> { if b then Some(Bool(true)) else None }

  function Image<T, U>(f: T -> U, s: seq<T>): (r: seq<U>)
    ensures |r| == |s| && forall i | 0 <= i < |s| :: r[i] == f(s[i])
  {
    seq(|s|, i requires 0 <= i < |s| => f(s[i]))
  }

  function OptList<T>(f: T -> Value, s: seq<T>): Option<Value> {
    if s == [] then None else Some(Array(Image(f, s)))
  }

  function TextValue(t: seq<byte>): Value { Text(t) }
  function PortValue(p: uint16): Value { UInt(p) }

  function RefInfoFields(r: RefInfo): seq<Option<Value>> {
    [Some(Text(r.name)), Some(SliceValue(r.key)), Some(IntValue(r.createdAt)), OptText(r.user)]
  }
  function RefInfoValue(r: RefInfo): Value { Struct(RefInfoFields(r)) }

  function EndpointFields(e: DataEndpointRec): seq<Option<Value>> {
    [Some(SliceValue(e.id)), OptList(TextValue, e.addrs)]
  }
  function EndpointValue(e: DataEndpointRec): Value { Struct(EndpointFields(e)) }

  function Fields(m: Msg): (f: seq<Option<Value>>)
    ensures |f| == 18
  {
    [Some(IntValue(m.typ)), OptText(m.name), OptBytes(m.root), OptBool(m.cas), OptBytes(m.expectedOld),
     OptBytes(m.record), OptList(RefInfoValue, m.refs), OptList(SliceValue, m.keys), OptBytes(m.data),
     OptBytes(m.key), OptText(m.code), OptText(m.text), OptBytes(m.current), OptBytes(m.token),
     OptInt(m.dataConns), OptList(PortValue, m.dataPorts), OptList(EndpointValue, m.dataEndpoints),
     OptList(TextValue, m.names)]
  }

  function ToValue(m: Msg): Value { Struct(Fields(m)) }

  function Marshal(m: Msg): seq<byte> { Encode(ToValue(m)) }

  // ---------- reading fields back ----------

  function ReadInt(v: Option<Value>): Option<int64> {
    match v
    case None => Some(0)
    case Some(Null) => Some(0)
    case Some(UInt(n)) => if n < 0x8000_0000_0000_0000 then Some(n) else None
    case Some(NInt(n)) => if n < 0x8000_0000_0000_0000 then Some(-1 - n) else None
    case _ => None
  }

  function ReadBool(v: Option<Value>): Option<bool> {
    match v
    case None => Some(false)
    case Some(Null) => Some(false)
    case Some(Bool(b)) => Some(b)
    case _ => None
  }

  function ReadText(v: Option<Value>): Option<seq<byte>> {
    match v
    case None => Some([])
    case Some(Null) => Some([])
    case Some(Text(t)) => if ValidUtf8(t) then Some(t) else None
    case _ => None
  }

  function ReadBytes(v: Option<Value>): Option<seq<byte>> {
    match v
    case None => Some([])
    case Some(Null) => Some([])
    case Some(Bytes(b)) => Some(b)
    case _ => None
  }

  function ReadSlice(v: Option<Value>): Option<Option<seq<byte>>> {
    match v
    case None => Some(None)
    case Some(Null) => Some(None)
    case Some(Bytes(b)) => Some(Some(b))
    case _ => None
  }

  function ReadPort(v: Option<Value>): Option<uint16> {
    match v
    case Some(Null) => Some(0)
    case Some(UInt(n)) => if n < 0x1_0000 then Some(n) else None
    case _ => None
  }

  /** Every element in turn, or nothing when one does not fit. */
  function ReadAll<T>(f: Option<Value> -> Option<T>, vs: seq<Value>): Option<seq<T>> {
    if vs == [] then Some([])
    else
      var first, more := f(Some(vs[0])), ReadAll(f, vs[1..]);
      if first.None? || more.None? then None else Some([first.value] + more.value)
  }

  function ReadList<T>(f: Option<Value> -> Option<T>, v: Option<Value>): Option<seq<T>> {
    match v
    case None => Some([])
    case Some(Null) => Some([])
    case Some(Array(items)) => ReadAll(f, items)
    case _ => None
  }

  function ReadRefInfo(v: Option<Value>): Option<RefInfo> {
    if v == Some(Null) then Some(RefInfo([], None, 0, []))
    else if v.None? || !v.value.Map? then None
    else
      var name, key := ReadText(Lookup(v.value.flat, 0)), ReadSlice(Lookup(v.value.flat, 1));
      var at, user := ReadInt(Lookup(v.value.flat, 2)), ReadText(Lookup(v.value.flat, 3));
      if name.None? || key.None? || at.None? || user.None? then None
      else Some(RefInfo(name.value, key.value, at.value, user.value))
  }

  function ReadEndpoint(v: Option<Value>): Option<DataEndpointRec> {
    if v == Some(Null) then Some(DataEndpointRec(None, []))
    else if v.None? || !v.value.Map? then None
    else
      var id, addrs := ReadSlice(Lookup(v.value.flat, 0)), ReadList(ReadText, Lookup(v.value.flat, 1));
      if id.None? || addrs.None? then None else Some(DataEndpointRec(id.value, addrs.value))
  }

  /**
   A field's reader takes what its writer writes, and null for the empty value, and
   nothing else: no other kind, no integer out of range, no text that is not UTF-8.
   */
  lemma ReadersInvertWriters(v: Value)
    ensures forall i: int64 :: ReadInt(Some(v)) == Some(i) <==> v == IntValue(i) || (v.Null? && i == 0)
    ensures forall b :: ReadBool(Some(v)) == Some(b) <==> v == Bool(b) || (v.Null? && !b)
    ensures forall t :: ReadText(Some(v)) == Some(t) <==> (v == Text(t) && ValidUtf8(t)) || (v.Null? && t == [])
    ensures forall b :: ReadBytes(Some(v)) == Some(b) <==> v == Bytes(b) || (v.Null? && b == [])
    ensures forall b :: ReadSlice(Some(v)) == Some(b) <==> v == SliceValue(b)
    ensures forall p: uint16 :: ReadPort(Some(v)) == Some(p) <==> v == PortValue(p) || (v.Null? && p == 0)
  {
    hide ValidUtf8;
  }

  /** The fields of a message, each read or found not to fit. */
  datatype Parts = Parts(
    typ: Option<int64>, name: Option<seq<byte>>, root: Option<seq<byte>>, cas: Option<bool>,
    expectedOld: Option<seq<byte>>, record: Option<seq<byte>>, refs: Option<seq<RefInfo>>,
    keys: Option<seq<Option<seq<byte>>>>, data: Option<seq<byte>>, key: Option<seq<byte>>,
    code: Option<seq<byte>>, text: Option<seq<byte>>, current: Option<seq<byte>>, token: Option<seq<byte>>,
    dataConns: Option<int64>, dataPorts: Option<seq<uint16>>, dataEndpoints: Option<seq<DataEndpointRec>>,
    names: Option<seq<seq<byte>>>)
  {
    predicate Whole() {
      && typ.Some? && name.Some? && root.Some? && cas.Some? && expectedOld.Some? && record.Some?
      && refs.Some? && keys.Some? && data.Some? && key.Some? && code.Some? && text.Some?
      && current.Some? && token.Some? && dataConns.Some? && dataPorts.Some? && dataEndpoints.Some? && names.Some?
    }

    function Assemble(): Option<Msg> {
      if Whole() then
        Some(Msg(typ.value, name.value, root.value, cas.value, expectedOld.value, record.value, refs.value,
                 keys.value, data.value, key.value, code.value, text.value, current.value, token.value,
                 dataConns.value, dataPorts.value, dataEndpoints.value, names.value))
      else None
    }
  }

  /** A reader knows some of the integer keys; entries under others are skipped. */
  function Known(flat: seq<Value>, known: set<nat>, k: nat): Option<Value> {
    if k in known then Lookup(flat, k) else None
  }

  function PartsOf(flat: seq<Value>, known: set<nat>): Parts {
    Parts(ReadInt(Known(flat, known, 0)), ReadText(Known(flat, known, 1)), ReadBytes(Known(flat, known, 2)),
          ReadBool(Known(flat, known, 3)), ReadBytes(Known(flat, known, 4)), ReadBytes(Known(flat, known, 5)),
          ReadList(ReadRefInfo, Known(flat, known, 6)), ReadList(ReadSlice, Known(flat, known, 7)),
          ReadBytes(Known(flat, known, 8)), ReadBytes(Known(flat, known, 9)), ReadText(Known(flat, known, 10)),
          ReadText(Known(flat, known, 11)), ReadBytes(Known(flat, known, 12)), ReadBytes(Known(flat, known, 13)),
          ReadInt(Known(flat, known, 14)), ReadList(ReadPort, Known(flat, known, 15)),
          ReadList(ReadEndpoint, Known(flat, known, 16)), ReadList(ReadText, Known(flat, known, 17)))
  }

  lemma NullReadsEmpty()
    ensures ReadInt(Some(Null)) == ReadInt(None) && ReadBool(Some(Null)) == ReadBool(None)
    ensures ReadText(Some(Null)) == ReadText(None) && ReadBytes(Some(Null)) == ReadBytes(None)
    ensures ReadList(ReadRefInfo, Some(Null)) == ReadList(ReadRefInfo, None)
    ensures ReadList(ReadSlice, Some(Null)) == ReadList(ReadSlice, None)
    ensures ReadList(ReadPort, Some(Null)) == ReadList(ReadPort, None)
    ensures ReadList(ReadEndpoint, Some(Null)) == ReadList(ReadEndpoint, None)
    ensures ReadList(ReadText, Some(Null)) == ReadList(ReadText, None)
  {
  }

  /** A null under some key is as good as no entry. */
  lemma NullIsAbsent(flat: seq<Value>, known: set<nat>, k: nat)
    requires Lookup(flat, k) == Some(Null)
    ensures PartsOf(flat, known) == PartsOf(flat, known - {k})
  {
    hide ReadInt, ReadText, ReadBytes, ReadBool, ReadList, Lookup;
    NullReadsEmpty();
    assert forall j | j != k :: Known(flat, known - {k}, j) == Known(flat, known, j);
  }

  const ALL_KEYS: set<nat> := set k: nat | k < 18

  /** Decoding by a reader that knows the keys in `known`; trailing bytes are an error. */
  function UnmarshalKnowing(bs: seq<byte>, known: set<nat>): Option<Msg> {
    match Decode(bs)
    case Some((Map(flat), rest)) => if rest == [] then PartsOf(flat, known).Assemble() else None
    case Some((Null, rest)) => if rest == [] then Some(EMPTY) else None
    case _ => None
  }

  function Unmarshal(bs: seq<byte>): Option<Msg> { UnmarshalKnowing(bs, ALL_KEYS) }

  // ---------- text ----------

  ghost predicate AllText(ts: seq<seq<byte>>) { forall t | t in ts :: ValidUtf8(t) }

  ghost predicate RefText(r: RefInfo) { ValidUtf8(r.name) && ValidUtf8(r.user) }

  /** The text a reader of `known` looks at is UTF-8; in other fields nobody looks. */
  ghost predicate TextOk(m: Msg, known: set<nat>) {
    && (1 in known ==> ValidUtf8(m.name))
    && (6 in known ==> forall r | r in m.refs :: RefText(r))
    && (10 in known ==> ValidUtf8(m.code))
    && (11 in known ==> ValidUtf8(m.text))
    && (16 in known ==> forall e | e in m.dataEndpoints :: AllText(e.addrs))
    && (17 in known ==> AllText(m.names))
  }

  // ---------- round trips ----------

  lemma {:induction false} ReadAllImage<T>(read: Option<Value> -> Option<T>, write: T -> Value, s: seq<T>, ok: set<T>)
    requires forall x | x in s :: read(Some(write(x))) == if x in ok then Some(x) else None
    ensures ReadAll(read, Image(write, s)) == if forall x | x in s :: x in ok then Some(s) else None
  {
    if s != [] {
      assert Image(write, s)[1..] == Image(write, s[1..]);
      ReadAllImage(read, write, s[1..], ok);
      assert s == [s[0]] + s[1..];
    }
  }

  /** A list comes back when all its elements do, from a reader that knows its field. */
  lemma ListRoundTrip<T>(read: Option<Value> -> Option<T>, write: T -> Value, s: seq<T>, ok: set<T>,
                         v: Option<Value>, known: bool)
    requires forall x | x in s :: read(Some(write(x))) == if x in ok then Some(x) else None
    requires v == if known then OptList(write, s) else None
    ensures ReadList(read, v)
         == if !known then Some([]) else if forall x | x in s :: x in ok then Some(s) else None
  {
    ReadAllImage(read, write, s, ok);
  }

  lemma TextListRoundTrip(ts: seq<seq<byte>>, v: Option<Value>, known: bool)
    requires v == if known then OptList(TextValue, ts) else None
    ensures ReadList(ReadText, v) == if !known then Some([]) else if AllText(ts) then Some(ts) else None
  {
    ListRoundTrip(ReadText, TextValue, ts, (set t | t in ts && ValidUtf8(t)), v, known);
  }

  lemma RefInfoRoundTrip(r: RefInfo)
    ensures ReadRefInfo(Some(RefInfoValue(r))) == if RefText(r) then Some(r) else None
  {
    hide Entries, ValidUtf8;
    var f := RefInfoFields(r);
    LookupEntries(f, 0, 0);
    LookupEntries(f, 0, 1);
    LookupEntries(f, 0, 2);
    LookupEntries(f, 0, 3);
    NoText();
  }

  lemma NoText()
    ensures ValidUtf8([])
  {
  }

  lemma EndpointRoundTrip(e: DataEndpointRec)
    ensures ReadEndpoint(Some(EndpointValue(e))) == if AllText(e.addrs) then Some(e) else None
  {
    hide Entries, ReadText, ReadList, AllText;
    var f := EndpointFields(e);
    LookupEntries(f, 0, 0);
    LookupEntries(f, 0, 1);
    TextListRoundTrip(e.addrs, f[1], true);
  }

  /** The message as a reader of the keys in `known` sees it. */
  function Project(m: Msg, known: set<nat>): Msg {
    Msg(if 0 in known then m.typ else 0,
        if 1 in known then m.name else [],
        if 2 in known then m.root else [],
        if 3 in known then m.cas else false,
        if 4 in known then m.expectedOld else [],
        if 5 in known then m.record else [],
        if 6 in known then m.refs else [],
        if 7 in known then m.keys else [],
        if 8 in known then m.data else [],
        if 9 in known then m.key else [],
        if 10 in known then m.code else [],
        if 11 in known then m.text else [],
        if 12 in known then m.current else [],
        if 13 in known then m.token else [],
        if 14 in known then m.dataConns else 0,
        if 15 in known then m.dataPorts else [],
        if 16 in known then m.dataEndpoints else [],
        if 17 in known then m.names else [])
  }

  /** A reader of `known` finds exactly the fields of `m` it knows. */
  ghost predicate Finds(flat: seq<Value>, known: set<nat>, m: Msg) {
    forall k: nat | k < 18 :: Known(flat, known, k) == if k in known then Fields(m)[k] else None
  }

  lemma NumbersRoundTrip(flat: seq<Value>, known: set<nat>, m: Msg)
    requires Finds(flat, known, m)
    ensures ReadInt(Known(flat, known, 0)) == Some(Project(m, known).typ)
    ensures ReadBool(Known(flat, known, 3)) == Some(Project(m, known).cas)
    ensures ReadInt(Known(flat, known, 14)) == Some(Project(m, known).dataConns)
  {
    hide Finds, Known, OptBytes, OptText, OptList;
    FoundAt(flat, known, m, 0);
    FoundAt(flat, known, m, 3);
    FoundAt(flat, known, m, 14);
  }

  lemma TextsRoundTrip(flat: seq<Value>, known: set<nat>, m: Msg)
    requires Finds(flat, known, m)
    ensures ReadText(Known(flat, known, 1))
         == if 1 in known && !ValidUtf8(m.name) then None else Some(Project(m, known).name)
    ensures ReadText(Known(flat, known, 10))
         == if 10 in known && !ValidUtf8(m.code) then None else Some(Project(m, known).code)
    ensures ReadText(Known(flat, known, 11))
         == if 11 in known && !ValidUtf8(m.text) then None else Some(Project(m, known).text)
  {
    hide Finds, Known, ReadText, OptBytes, OptText, OptList, OptInt, OptBool, IntValue, ValidUtf8;
    TextBack(flat, known, m, 1, m.name);
    TextBack(flat, known, m, 10, m.code);
    TextBack(flat, known, m, 11, m.text);
  }

  lemma SlicesRoundTrip(flat: seq<Value>, known: set<nat>, m: Msg)
    requires Finds(flat, known, m)
    ensures ReadBytes(Known(flat, known, 2)) == Some(Project(m, known).root)
    ensures ReadBytes(Known(flat, known, 4)) == Some(Project(m, known).expectedOld)
    ensures ReadBytes(Known(flat, known, 5)) == Some(Project(m, known).record)
    ensures ReadBytes(Known(flat, known, 8)) == Some(Project(m, known).data)
    ensures ReadBytes(Known(flat, known, 9)) == Some(Project(m, known).key)
    ensures ReadBytes(Known(flat, known, 12)) == Some(Project(m, known).current)
    ensures ReadBytes(Known(flat, known, 13)) == Some(Project(m, known).token)
  {
    hide Finds, Known, ReadBytes, OptBytes, OptText, OptList, OptInt, OptBool, IntValue;
    SliceBack(flat, known, m, 2, m.root);
    SliceBack(flat, known, m, 4, m.expectedOld);
    SliceBack(flat, known, m, 5, m.record);
    SliceBack(flat, known, m, 8, m.data);
    SliceBack(flat, known, m, 9, m.key);
    SliceBack(flat, known, m, 12, m.current);
    SliceBack(flat, known, m, 13, m.token);
  }

  lemma SliceBack(flat: seq<Value>, known: set<nat>, m: Msg, k: nat, b: seq<byte>)
    requires Finds(flat, known, m) && k < 18 && Fields(m)[k] == OptBytes(b)
    ensures ReadBytes(Known(flat, known, k)) == Some(if k in known then b else [])
  {
    hide Fields;
  }

  lemma TextBack(flat: seq<Value>, known: set<nat>, m: Msg, k: nat, t: seq<byte>)
    requires Finds(flat, known, m) && k < 18 && Fields(m)[k] == OptText(t)
    ensures ReadText(Known(flat, known, k))
         == if k in known && !ValidUtf8(t) then None else Some(if k in known then t else [])
  {
    hide Fields, ValidUtf8;
    NoText();
  }

  lemma FoundAt(flat: seq<Value>, known: set<nat>, m: Msg, k: nat)
    requires Finds(flat, known, m) && k < 18
    ensures Known(flat, known, k) == if k in known then Fields(m)[k] else None
  {
    hide Fields, Known;
  }

  lemma PlainListsRoundTrip(flat: seq<Value>, known: set<nat>, m: Msg)
    requires Finds(flat, known, m)
    ensures ReadList(ReadSlice, Known(flat, known, 7)) == Some(Project(m, known).keys)
    ensures ReadList(ReadPort, Known(flat, known, 15)) == Some(Project(m, known).dataPorts)
    ensures ReadList(ReadText, Known(flat, known, 17))
         == if 17 in known && !AllText(m.names) then None else Some(Project(m, known).names)
  {
    hide Finds, Known, OptBytes, OptText, OptInt, OptBool, OptList, ReadList, AllText, ReadText;
    FoundAt(flat, known, m, 7);
    FoundAt(flat, known, m, 15);
    FoundAt(flat, known, m, 17);
    ListRoundTrip(ReadSlice, SliceValue, m.keys, (set k | k in m.keys), Known(flat, known, 7), 7 in known);
    ListRoundTrip(ReadPort, PortValue, m.dataPorts, (set p | p in m.dataPorts), Known(flat, known, 15), 15 in known);
    TextListRoundTrip(m.names, Known(flat, known, 17), 17 in known);
  }

  lemma RefsRoundTrip(flat: seq<Value>, known: set<nat>, m: Msg)
    requires Finds(flat, known, m)
    ensures ReadList(ReadRefInfo, Known(flat, known, 6))
         == if 6 in known && !(forall r | r in m.refs :: RefText(r)) then None else Some(Project(m, known).refs)
  {
    hide Finds, Known, OptBytes, OptText, OptInt, OptBool, OptList, ReadList, ReadRefInfo, RefInfoValue, RefText;
    FoundAt(flat, known, m, 6);
    var good := set r | r in m.refs && RefText(r);
    forall r | r in m.refs
      ensures ReadRefInfo(Some(RefInfoValue(r))) == if r in good then Some(r) else None
    {
      RefInfoRoundTrip(r);
    }
    ListRoundTrip(ReadRefInfo, RefInfoValue, m.refs, good, Known(flat, known, 6), 6 in known);
  }

  lemma EndpointsRoundTrip(flat: seq<Value>, known: set<nat>, m: Msg)
    requires Finds(flat, known, m)
    ensures ReadList(ReadEndpoint, Known(flat, known, 16))
         == if 16 in known && !(forall e | e in m.dataEndpoints :: AllText(e.addrs)) then None
            else Some(Project(m, known).dataEndpoints)
  {
    hide Finds, Known, OptBytes, OptText, OptInt, OptBool, OptList, ReadList, ReadEndpoint, EndpointValue, AllText;
    FoundAt(flat, known, m, 16);
    var good := set e | e in m.dataEndpoints && AllText(e.addrs);
    forall e | e in m.dataEndpoints
      ensures ReadEndpoint(Some(EndpointValue(e))) == if e in good then Some(e) else None
    {
      EndpointRoundTrip(e);
    }
    ListRoundTrip(ReadEndpoint, EndpointValue, m.dataEndpoints, good, Known(flat, known, 16), 16 in known);
  }

  lemma FieldsRoundTrip(m: Msg, known: set<nat>)
    ensures PartsOf(Entries(Fields(m), 0), known).Assemble()
         == if TextOk(m, known) then Some(Project(m, known)) else None
  {
    hide Known, Lookup, Fields, Entries, ReadText, ReadInt, ReadBool, ReadBytes, ReadList, ReadSlice, ReadPort,
      ReadRefInfo, ReadEndpoint, ValidUtf8, AllText, RefText;
    var flat := Entries(Fields(m), 0);
    AllFound(m, known);
    NumbersRoundTrip(flat, known, m);
    TextsRoundTrip(flat, known, m);
    SlicesRoundTrip(flat, known, m);
    PlainListsRoundTrip(flat, known, m);
    RefsRoundTrip(flat, known, m);
    EndpointsRoundTrip(flat, known, m);
  }

  lemma AllFound(m: Msg, known: set<nat>)
    ensures Finds(Entries(Fields(m), 0), known, m)
  {
    hide Fields, Entries, Lookup;
    var flat := Entries(Fields(m), 0);
    forall k: nat | k < 18
      ensures Known(flat, known, k) == if k in known then Fields(m)[k] else None
    {
      LookupEntries(Fields(m), 0, k);
    }
  }

  // ---------- which messages survive ----------

  /** No list, known or not, is longer than a decoder accepts. */
  ghost predicate Fits(m: Msg) {
    && |m.keys| <= MAX_ELEMENTS && |m.dataPorts| <= MAX_ELEMENTS && |m.names| <= MAX_ELEMENTS
    && |m.refs| <= MAX_ELEMENTS && EndpointsFit(m.dataEndpoints)
  }

  ghost predicate EndpointsFit(es: seq<DataEndpointRec>) {
    |es| <= MAX_ELEMENTS && forall e | e in es :: |e.addrs| <= MAX_ELEMENTS
  }

  /** A reader that knows every field takes it. */
  ghost predicate WellFormed(m: Msg) { Fits(m) && TextOk(m, ALL_KEYS) }

  lemma ImageMembers<T>(f: T -> Value, s: seq<T>)
    ensures (forall v | v in Image(f, s) :: Acceptable(v)) <==> forall x | x in s :: Acceptable(f(x))
    ensures (forall v | v in Image(f, s) :: Plain(v)) <==> forall x | x in s :: Plain(f(x))
  {
    forall x | x in s
      ensures f(x) in Image(f, s)
    {
      var i :| 0 <= i < |s| && s[i] == x;
      assert Image(f, s)[i] == f(x);
    }
  }

  lemma OptListAcceptable<T>(f: T -> Value, s: seq<T>)
    ensures OptList(f, s).Some? ==>
              (Acceptable(OptList(f, s).value) <==> |s| <= MAX_ELEMENTS && forall x | x in s :: Acceptable(f(x)))
    ensures OptList(f, s).Some? ==> (Plain(OptList(f, s).value) <==> forall x | x in s :: Plain(f(x)))
  {
    ImageMembers(f, s);
  }

  lemma RefInfoAcceptable(r: RefInfo)
    ensures Plain(RefInfoValue(r)) && Acceptable(RefInfoValue(r))
  {
    var f := RefInfoFields(r);
    StructMembers(f);
    assert f[0] == Some(Text(r.name)) && f[1] == Some(SliceValue(r.key)) && f[2] == Some(IntValue(r.createdAt));
    assert f[3] == OptText(r.user);
  }

  lemma EndpointAcceptable(e: DataEndpointRec)
    ensures Plain(EndpointValue(e))
    ensures Acceptable(EndpointValue(e)) <==> |e.addrs| <= MAX_ELEMENTS
  {
    var f := EndpointFields(e);
    StructMembers(f);
    OptListAcceptable(TextValue, e.addrs);
    assert f[0] == Some(SliceValue(e.id)) && f[1] == OptList(TextValue, e.addrs);
  }

  lemma RefsAcceptable(rs: seq<RefInfo>)
    requires rs != []
    ensures Plain(OptList(RefInfoValue, rs).value)
    ensures Acceptable(OptList(RefInfoValue, rs).value) <==> |rs| <= MAX_ELEMENTS
  {
    forall r | r in rs
      ensures Plain(RefInfoValue(r)) && Acceptable(RefInfoValue(r))
    {
      RefInfoAcceptable(r);
    }
    OptListAcceptable(RefInfoValue, rs);
  }

  lemma EndpointsAcceptable(es: seq<DataEndpointRec>)
    requires es != []
    ensures Plain(OptList(EndpointValue, es).value)
    ensures Acceptable(OptList(EndpointValue, es).value) <==> EndpointsFit(es)
  {
    forall e | e in es
      ensures Plain(EndpointValue(e))
      ensures Acceptable(EndpointValue(e)) <==> |e.addrs| <= MAX_ELEMENTS
    {
      EndpointAcceptable(e);
    }
    OptListAcceptable(EndpointValue, es);
  }

  /** What a decoder asks of field `k`, whether its reader knows it or not. */
  ghost predicate FieldOk(m: Msg, k: nat) {
    match k
    case 6 => |m.refs| <= MAX_ELEMENTS
    case 7 => |m.keys| <= MAX_ELEMENTS
    case 15 => |m.dataPorts| <= MAX_ELEMENTS
    case 16 => EndpointsFit(m.dataEndpoints)
    case 17 => |m.names| <= MAX_ELEMENTS
    case _ => true
  }

  /** Field `k` is absent or a value of the schema, and a decoder takes it exactly when FieldOk says so. */
  ghost predicate Judged(m: Msg, k: nat, v: Option<Value>) {
    && (v.None? ==> FieldOk(m, k))
    && (v.Some? ==> Plain(v.value) && (Acceptable(v.value) <==> FieldOk(m, k)))
  }

  lemma ScalarFieldJudged(m: Msg)
    ensures Judged(m, 0, Some(IntValue(m.typ))) && Judged(m, 3, OptBool(m.cas)) && Judged(m, 14, OptInt(m.dataConns))
    ensures Judged(m, 1, OptText(m.name)) && Judged(m, 10, OptText(m.code)) && Judged(m, 11, OptText(m.text))
  {
  }

  lemma SliceFieldJudged(m: Msg, k: nat, b: seq<byte>)
    requires k in {2, 4, 5, 8, 9, 12, 13}
    ensures Judged(m, k, OptBytes(b))
  {
  }

  lemma ListFieldJudged(m: Msg)
    ensures Judged(m, 7, OptList(SliceValue, m.keys))
    ensures Judged(m, 15, OptList(PortValue, m.dataPorts))
    ensures Judged(m, 17, OptList(TextValue, m.names))
  {
    OptListAcceptable(SliceValue, m.keys);
    OptListAcceptable(PortValue, m.dataPorts);
    OptListAcceptable(TextValue, m.names);
  }

  lemma StructListFieldJudged(m: Msg)
    ensures Judged(m, 6, OptList(RefInfoValue, m.refs))
    ensures Judged(m, 16, OptList(EndpointValue, m.dataEndpoints))
  {
    if m.refs != [] {
      RefsAcceptable(m.refs);
    }
    if m.dataEndpoints != [] {
      EndpointsAcceptable(m.dataEndpoints);
    }
  }

  lemma FieldAcceptable(m: Msg, k: nat)
    requires k < 18
    ensures Judged(m, k, Fields(m)[k])
  {
    hide Judged, FieldOk, OptBytes, OptText, OptInt, OptBool, OptList, IntValue;
    ScalarFieldJudged(m);
    SliceFieldJudged(m, 2, m.root);
    SliceFieldJudged(m, 4, m.expectedOld);
    SliceFieldJudged(m, 5, m.record);
    SliceFieldJudged(m, 8, m.data);
    SliceFieldJudged(m, 9, m.key);
    SliceFieldJudged(m, 12, m.current);
    SliceFieldJudged(m, 13, m.token);
    ListFieldJudged(m);
    StructListFieldJudged(m);
  }

  lemma MsgAcceptable(m: Msg)
    ensures Plain(ToValue(m))
    ensures Acceptable(ToValue(m)) <==> Fits(m)
  {
    hide Judged, FieldOk, Struct, EndpointsFit;
    StructMembers(Fields(m));
    forall k: nat | k < 18
      ensures Fields(m)[k].None? ==> FieldOk(m, k)
      ensures Fields(m)[k].Some? ==> Plain(Fields(m)[k].value) && (Acceptable(Fields(m)[k].value) <==> FieldOk(m, k))
    {
      FieldAcceptable(m, k);
      JudgedMeaning(m, k, Fields(m)[k]);
    }
    AllFieldsOk(m);
    assert Acceptable(ToValue(m)) <==> forall k: nat | k < 18 :: FieldOk(m, k);
  }

  lemma JudgedMeaning(m: Msg, k: nat, v: Option<Value>)
    requires Judged(m, k, v)
    ensures v.None? ==> FieldOk(m, k)
    ensures v.Some? ==> Plain(v.value) && (Acceptable(v.value) <==> FieldOk(m, k))
  {
  }

  lemma AllFieldsOk(m: Msg)
    ensures Fits(m) <==> forall k: nat | k < 18 :: FieldOk(m, k)
  {
    hide EndpointsFit;
    if forall k: nat | k < 18 :: FieldOk(m, k) {
      assert FieldOk(m, 6) && FieldOk(m, 7) && FieldOk(m, 15) && FieldOk(m, 16) && FieldOk(m, 17);
    }
  }

  /**
   The codec's promise: a reader that knows only some of the keys gets exactly the message
   projected onto them. It fails exactly when a list anywhere is over the limit, or text it
   knows is not UTF-8; what is in fields it does not know is skipped.
   */
  lemma UnmarshalMarshal(m: Msg, known: set<nat>)
    requires |Marshal(m)| < TWO_64
    ensures UnmarshalKnowing(Marshal(m), known)
         == if Fits(m) && TextOk(m, known) then Some(Project(m, known)) else None
  {
    hide Fields, Project, TextOk, Fits, PartsOf, Encode, Decode;
    MsgAcceptable(m);
    SmallIsEncodable(ToValue(m));
    DecodeEncode(ToValue(m), []);
    assert Marshal(m) + [] == Marshal(m);
    FieldsRoundTrip(m, known);
  }

  lemma MsgRoundTrip(m: Msg)
    requires |Marshal(m)| < TWO_64
    ensures Unmarshal(Marshal(m)) == if WellFormed(m) then Some(m) else None
  {
    hide Marshal, TextOk, Fits, UnmarshalKnowing, Project;
    UnmarshalMarshal(m, ALL_KEYS);
    ProjectAll(m);
  }

  /** Anything behind a message makes it malformed. */
  lemma TrailingBytes(m: Msg, tail: seq<byte>)
    requires |Marshal(m)| < TWO_64 && tail != []
    ensures Unmarshal(Marshal(m) + tail) == None
  {
    hide Fields, Entries, Decode, Acceptable, Encode, PartsOf;
    MsgAcceptable(m);
    SmallIsEncodable(ToValue(m));
    DecodeEncode(ToValue(m), tail);
  }

  lemma ProjectAll(m: Msg)
    ensures Project(m, ALL_KEYS) == m
  {
  }

  lemma MarshalInjective(m: Msg, n: Msg)
    requires WellFormed(m) && |Marshal(m)| < TWO_64
    requires Marshal(m) == Marshal(n)
    ensures m == n
  {
    MsgRoundTrip(m);
    MsgRoundTrip(n);
  }

  // ---------- older writers ----------

  /** The encoding of a writer whose struct has only the fields in `known`. */
  function MarshalKnowing(m: Msg, known: set<nat>): seq<byte> {
    Encode(Struct(Mask(Fields(m), known)))
  }

  function Mask(fields: seq<Option<Value>>, known: set<nat>): (r: seq<Option<Value>>)
    ensures |r| == |fields| && forall k | 0 <= k < |fields| :: r[k] == if k in known then fields[k] else None
  {
    seq(|fields|, k requires 0 <= k < |fields| => if k in known then fields[k] else None)
  }

  /**
   A writer that knows fewer fields sends, byte for byte, the message with the fields it
   does not know empty, and that is how a newer reader takes it. Every writer knows the type.
   */
  lemma OlderWriter(m: Msg, known: set<nat>)
    requires 0 in known && |MarshalKnowing(m, known)| < TWO_64
    ensures MarshalKnowing(m, known) == Marshal(Project(m, known))
    ensures Unmarshal(MarshalKnowing(m, known))
         == if WellFormed(Project(m, known)) then Some(Project(m, known)) else None
  {
    hide WellFormed, Marshal, Unmarshal;
    MaskedFields(m, known);
    MsgRoundTrip(Project(m, known));
  }

  lemma MaskedFields(m: Msg, known: set<nat>)
    requires 0 in known
    ensures Mask(Fields(m), known) == Fields(Project(m, known))
    ensures MarshalKnowing(m, known) == Marshal(Project(m, known))
  {
    hide Encode, Entries;
    forall k: nat | k < 18
      ensures Mask(Fields(m), known)[k] == Fields(Project(m, known))[k]
    {
      MaskedField(m, known, k);
    }
  }

  lemma MaskedField(m: Msg, known: set<nat>, k: nat)
    requires 0 in known && k < 18
    ensures (if k in known then Fields(m)[k] else None) == Fields(Project(m, known))[k]
  {
    hide Fields, OptBytes, OptText, OptInt, OptBool, OptList, IntValue, RefInfoValue, EndpointValue, SliceValue,
      PortValue, TextValue;
    EmptyFields();
    if k < 9 {
      LowFields(m);
      LowFields(Project(m, known));
    } else {
      HighFields(m);
      HighFields(Project(m, known));
    }
  }

  lemma LowFields(m: Msg)
    ensures Fields(m)[0] == Some(IntValue(m.typ))
    ensures Fields(m)[1] == OptText(m.name)
    ensures Fields(m)[2] == OptBytes(m.root)
    ensures Fields(m)[3] == OptBool(m.cas)
    ensures Fields(m)[4] == OptBytes(m.expectedOld)
    ensures Fields(m)[5] == OptBytes(m.record)
    ensures Fields(m)[6] == OptList(RefInfoValue, m.refs)
    ensures Fields(m)[7] == OptList(SliceValue, m.keys)
    ensures Fields(m)[8] == OptBytes(m.data)
  {
    hide OptBytes, OptText, OptInt, OptBool, OptList, IntValue, RefInfoValue, SliceValue;
  }

  lemma HighFields(m: Msg)
    ensures Fields(m)[9] == OptBytes(m.key)
    ensures Fields(m)[10] == OptText(m.code)
    ensures Fields(m)[11] == OptText(m.text)
    ensures Fields(m)[12] == OptBytes(m.current)
    ensures Fields(m)[13] == OptBytes(m.token)
    ensures Fields(m)[14] == OptInt(m.dataConns)
    ensures Fields(m)[15] == OptList(PortValue, m.dataPorts)
    ensures Fields(m)[16] == OptList(EndpointValue, m.dataEndpoints)
    ensures Fields(m)[17] == OptList(TextValue, m.names)
  {
    hide OptBytes, OptText, OptInt, OptBool, OptList, IntValue, EndpointValue, PortValue, TextValue;
  }

  lemma EmptyFields()
    ensures OptBytes([]) == OptText([]) == OptBool(false) == OptInt(0) == None
    ensures OptList(RefInfoValue, []) == OptList(SliceValue, []) == OptList(PortValue, []) == None
    ensures OptList(EndpointValue, []) == OptList(TextValue, []) == None
  {
  }

  // ---------- which key is which field ----------

  /** What a message's map holds under the keys of its plain fields. */
  lemma PlainKeys(m: Msg)
    ensures Lookup(Entries(Fields(m), 0), 0)
         == Some(if m.typ >= 0 then UInt(m.typ) else NInt(-1 - m.typ))
    ensures Lookup(Entries(Fields(m), 0), 1)
         == if m.name == [] then None else Some(Text(m.name))
    ensures Lookup(Entries(Fields(m), 0), 2)
         == if m.root == [] then None else Some(Bytes(m.root))
    ensures Lookup(Entries(Fields(m), 0), 3)
         == if m.cas then Some(Bool(true)) else None
    ensures Lookup(Entries(Fields(m), 0), 4)
         == if m.expectedOld == [] then None else Some(Bytes(m.expectedOld))
    ensures Lookup(Entries(Fields(m), 0), 5)
         == if m.record == [] then None else Some(Bytes(m.record))
    ensures Lookup(Entries(Fields(m), 0), 8)
         == if m.data == [] then None else Some(Bytes(m.data))
    ensures Lookup(Entries(Fields(m), 0), 9)
         == if m.key == [] then None else Some(Bytes(m.key))
    ensures Lookup(Entries(Fields(m), 0), 10)
         == if m.code == [] then None else Some(Text(m.code))
    ensures Lookup(Entries(Fields(m), 0), 11)
         == if m.text == [] then None else Some(Text(m.text))
    ensures Lookup(Entries(Fields(m), 0), 12)
         == if m.current == [] then None else Some(Bytes(m.current))
    ensures Lookup(Entries(Fields(m), 0), 13)
         == if m.token == [] then None else Some(Bytes(m.token))
    ensures Lookup(Entries(Fields(m), 0), 14)
         == if m.dataConns == 0 then None
            else Some(if m.dataConns >= 0 then UInt(m.dataConns) else NInt(-1 - m.dataConns))
  {
    hide Fields, Entries, OptList;
    LowFields(m);
    HighFields(m);
    forall k: nat | k < 18
      ensures Lookup(Entries(Fields(m), 0), k) == Fields(m)[k]
    {
      LookupEntries(Fields(m), 0, k);
    }
  }

  /** A list sits under `k`, element by element, when it is not empty. */
  ghost predicate ListUnder<T(!new)>(m: Msg, k: nat, s: seq<T>, write: T -> Value) {
    Lookup(Entries(Fields(m), 0), k)
    == if s == [] then None else Some(Array(seq(|s|, i requires 0 <= i < |s| => write(s[i]))))
  }

  lemma ListUnderKey<T(!new)>(m: Msg, k: nat, s: seq<T>, write: T -> Value)
    requires k < 18 && Fields(m)[k] == OptList(write, s)
    ensures ListUnder(m, k, s, write)
  {
    hide Fields, Entries;
    LookupEntries(Fields(m), 0, k);
    assert Image(write, s) == seq(|s|, i requires 0 <= i < |s| => write(s[i]));
  }

  /** And under the keys of its lists. */
  lemma ListKeys(m: Msg)
    ensures ListUnder(m, 6, m.refs, RefInfoValue) && ListUnder(m, 7, m.keys, SliceValue)
    ensures ListUnder(m, 15, m.dataPorts, PortValue) && ListUnder(m, 16, m.dataEndpoints, EndpointValue)
    ensures ListUnder(m, 17, m.names, TextValue)
    ensures forall b :: SliceValue(b) == if b.None? then Null else Bytes(b.value)
    ensures forall p: uint16 :: PortValue(p) == UInt(p)
    ensures forall t :: TextValue(t) == Text(t)
  {
    hide Fields, ListUnder, RefInfoValue, EndpointValue;
    LowFields(m);
    HighFields(m);
    ListUnderKey(m, 6, m.refs, RefInfoValue);
    ListUnderKey(m, 7, m.keys, SliceValue);
    ListUnderKey(m, 15, m.dataPorts, PortValue);
    ListUnderKey(m, 16, m.dataEndpoints, EndpointValue);
    ListUnderKey(m, 17, m.names, TextValue);
  }

  lemma RefInfoKeys(r: RefInfo)
    ensures RefInfoValue(r).Map?
    ensures Lookup(RefInfoValue(r).flat, 0) == Some(Text(r.name))
    ensures Lookup(RefInfoValue(r).flat, 1) == Some(if r.key.None? then Null else Bytes(r.key.value))
    ensures Lookup(RefInfoValue(r).flat, 2)
         == Some(if r.createdAt >= 0 then UInt(r.createdAt) else NInt(-1 - r.createdAt))
    ensures Lookup(RefInfoValue(r).flat, 3) == if r.user == [] then None else Some(Text(r.user))
  {
    hide Entries;
    var f := RefInfoFields(r);
    LookupEntries(f, 0, 0);
    LookupEntries(f, 0, 1);
    LookupEntries(f, 0, 2);
    LookupEntries(f, 0, 3);
  }

  lemma EndpointKeys(e: DataEndpointRec)
    ensures EndpointValue(e).Map?
    ensures Lookup(EndpointValue(e).flat, 0) == Some(if e.id.None? then Null else Bytes(e.id.value))
    ensures Lookup(EndpointValue(e).flat, 1)
         == if e.addrs == [] then None
            else Some(Array(seq(|e.addrs|, i requires 0 <= i < |e.addrs| => Text(e.addrs[i]))))
  {
    hide Entries;
    var f := EndpointFields(e);
    LookupEntries(f, 0, 0);
    LookupEntries(f, 0, 1);
    assert Image(TextValue, e.addrs) == seq(|e.addrs|, i requires 0 <= i < |e.addrs| => Text(e.addrs[i]));
  }

  // ---------- what a decoder lets through ----------

  /** Whatever a reader that knows every field accepts is well-formed. */
  lemma UnmarshalWellFormed(bs: seq<byte>)
    ensures Unmarshal(bs).Some? ==> WellFormed(Unmarshal(bs).value)
  {
    hide Decode, Acceptable, PartsOf, WellFormed;
    EmptyWellFormed();
    match Decode(bs)
    case Some((Map(flat), rest)) =>
      DecodeAcceptable(bs);
      MapMembers(flat);
      PartsWellFormed(flat);
    case _ =>
  }

  lemma EmptyWellFormed()
    ensures WellFormed(EMPTY)
  {
  }

  lemma MapMembers(flat: seq<Value>)
    requires Acceptable(Map(flat))
    ensures forall v | v in flat :: Acceptable(v)
  {
  }

  lemma {:induction false} LookupAcceptable(flat: seq<Value>, k: nat)
    requires forall v | v in flat :: Acceptable(v)
    ensures Lookup(flat, k).Some? ==> Acceptable(Lookup(flat, k).value)
  {
    hide Acceptable;
    if |flat| >= 2 && flat[0] != UInt(k) {
      LookupAcceptable(flat[2..], k);
    }
  }

  lemma TextsRead(v: Option<Value>)
    ensures ReadText(v).Some? ==> ValidUtf8(ReadText(v).value)
  {
  }

  lemma {:induction false} ReadAllElements<T>(read: Option<Value> -> Option<T>, vs: seq<Value>)
    ensures var r := ReadAll(read, vs);
            r.Some? ==> |r.value| == |vs| && forall x | x in r.value :: exists v :: v in vs && read(Some(v)) == Some(x)
  {
    if vs != [] {
      ReadAllElements(read, vs[1..]);
      assert vs == [vs[0]] + vs[1..];
    }
  }

  /** A list that is read is within the limit, and its elements were read from acceptable values. */
  lemma ListRead<T>(read: Option<Value> -> Option<T>, v: Option<Value>)
    requires v.Some? ==> Acceptable(v.value)
    ensures var r := ReadList(read, v);
            r.Some? ==>
              && |r.value| <= MAX_ELEMENTS
              && forall x | x in r.value :: exists w :: Acceptable(w) && read(Some(w)) == Some(x)
  {
    match v
    case Some(Array(items)) =>
      ReadAllElements(read, items);
      assert forall w | w in items :: Acceptable(w);
    case _ =>
  }

  lemma TextListRead(v: Option<Value>)
    requires v.Some? ==> Acceptable(v.value)
    ensures var r := ReadList(ReadText, v); r.Some? ==> |r.value| <= MAX_ELEMENTS && AllText(r.value)
  {
    hide Acceptable, ValidUtf8, ReadList;
    ListRead(ReadText, v);
    var r := ReadList(ReadText, v);
    if r.Some? {
      forall t | t in r.value
        ensures ValidUtf8(t)
      {
        var w :| Acceptable(w) && ReadText(Some(w)) == Some(t);
        TextsRead(Some(w));
      }
    }
  }

  lemma RefListRead(v: Option<Value>)
    requires v.Some? ==> Acceptable(v.value)
    ensures var r := ReadList(ReadRefInfo, v);
            r.Some? ==> |r.value| <= MAX_ELEMENTS && forall x | x in r.value :: RefText(x)
  {
    hide Acceptable, ValidUtf8, ReadList, ReadRefInfo, RefText;
    ListRead(ReadRefInfo, v);
    var r := ReadList(ReadRefInfo, v);
    if r.Some? {
      forall x | x in r.value
        ensures RefText(x)
      {
        var w :| Acceptable(w) && ReadRefInfo(Some(w)) == Some(x);
        RefRead(w);
      }
    }
  }

  lemma RefRead(w: Value)
    ensures ReadRefInfo(Some(w)).Some? ==> RefText(ReadRefInfo(Some(w)).value)
  {
    hide ValidUtf8, ReadText, ReadInt, ReadSlice, Lookup;
    NoText();
    if w.Map? {
      TextsRead(Lookup(w.flat, 0));
      TextsRead(Lookup(w.flat, 3));
    }
  }

  lemma EndpointListRead(v: Option<Value>)
    requires v.Some? ==> Acceptable(v.value)
    ensures var r := ReadList(ReadEndpoint, v);
            r.Some? ==> EndpointsFit(r.value) && forall x | x in r.value :: AllText(x.addrs)
  {
    hide Acceptable, ReadList, ReadEndpoint, AllText;
    ListRead(ReadEndpoint, v);
    var r := ReadList(ReadEndpoint, v);
    if r.Some? {
      forall x | x in r.value
        ensures |x.addrs| <= MAX_ELEMENTS && AllText(x.addrs)
      {
        var w :| Acceptable(w) && ReadEndpoint(Some(w)) == Some(x);
        EndpointRead(w);
      }
    }
  }

  lemma EndpointRead(w: Value)
    requires Acceptable(w)
    ensures var e := ReadEndpoint(Some(w)); e.Some? ==> |e.value.addrs| <= MAX_ELEMENTS && AllText(e.value.addrs)
  {
    hide Acceptable, ReadList, ReadSlice, Lookup, ValidUtf8;
    if w.Map? {
      MapMembers(w.flat);
      LookupAcceptable(w.flat, 1);
      TextListRead(Lookup(w.flat, 1));
    }
  }

  lemma PartsWellFormed(flat: seq<Value>)
    requires forall v | v in flat :: Acceptable(v)
    ensures var m := PartsOf(flat, ALL_KEYS).Assemble(); m.Some? ==> WellFormed(m.value)
  {
    hide Acceptable, ReadList, ReadText, ReadInt, ReadBool, ReadBytes, Lookup, ValidUtf8, AllText, RefText,
      EndpointsFit;
    TextsRead(Lookup(flat, 1));
    TextsRead(Lookup(flat, 10));
    TextsRead(Lookup(flat, 11));
    KnownAll(flat);
    LookupAcceptable(flat, 6);
    RefListRead(Lookup(flat, 6));
    LookupAcceptable(flat, 7);
    ListRead(ReadSlice, Lookup(flat, 7));
    LookupAcceptable(flat, 15);
    ListRead(ReadPort, Lookup(flat, 15));
    LookupAcceptable(flat, 16);
    EndpointListRead(Lookup(flat, 16));
    LookupAcceptable(flat, 17);
    TextListRead(Lookup(flat, 17));
  }

  lemma KnownAll(flat: seq<Value>)
    ensures forall k: nat | k < 18 :: Known(flat, ALL_KEYS, k) == Lookup(flat, k)
  {
    hide Lookup;
  }
}

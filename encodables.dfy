/** A client value as the encoder sees it: the calls its `encode(to:)` makes, which containers
    they name, which of them write into the encoder's cell, which scripts cannot fail, and the JSON
    value a script of calls denotes, independently of the cells that carry it out.

    A client value (`Encodable`) is represented by what its `encode(to:)` does: the sequence of
    container requests and container calls it makes, in order. Containers are named by handles,
    numbered per kind in the order the client obtained them, so a client may keep several
    containers, including nested ones, and interleave writes to them as Swift code can. */
module Encodables {
  import opened Outcomes
  import opened JsonText
  import opened JsonNodes
  import opened JsonReading

  /** The argument of the non-generic `encode` overloads and of `encodeNil`. The signed widths
      (`Int`, `Int8` ... `Int64`) are all within `Int64`, the unsigned ones within `UInt64`. */
  datatype Scalar =
    | Nil
    | Boolean(b: bool)
    | Signed(i: Int64)
    | Unsigned(u: UInt64)
    | FloatValue(f: FloatText)
    | DoubleValue(d: FloatText)
    | Text(s: string)

  /** The two types `build` recognises before encoding a value generically. Their string forms
      (`iso8601DateTime`, `base64`) come from code that is not part of this model, so a value
      carries them. */
  datatype Kind = DateKind(iso8601DateTime: string) | DataKind(base64: string) | OtherKind

  /** A value conforming to `Encodable`: its kind, and the calls its `encode(to:)` makes. */
  datatype Encodable = Encodable(kind: Kind, calls: seq<Call>)

  /** One step of an `encode(to:)` implementation. */
  datatype Call =
    | RequestKeyed                                    // encoder.container(keyedBy:)
    | RequestUnkeyed                                  // encoder.unkeyedContainer()
    | RequestSingleValue                              // encoder.singleValueContainer()
    | OnKeyed(handle: nat, keyed: KeyedCall)          // a call on a keyed container
    | OnUnkeyed(handle: nat, unkeyed: ValueCall)      // a call on an unkeyed container
    | OnSingleValue(handle: nat, single: ValueCall)   // a call on a single-value container

  datatype KeyedCall =
    | EncodeScalarForKey(scalar: Scalar, key: string) // encodeNil(forKey:), encode(_:forKey:) overloads
    | EncodeForKey(value: Encodable, key: string)     // the generic encode(_:forKey:)
    | NestedKeyed(key: string)                        // nestedContainer(keyedBy:forKey:)
    | NestedUnkeyed(key: string)                      // nestedUnkeyedContainer(forKey:)
    | KeyedSuperEncoder                               // superEncoder(), superEncoder(forKey:)

  datatype ValueCall =
    | EncodeScalar(scalar: Scalar)                    // encodeNil(), encode(_:) overloads
    | EncodeValue(value: Encodable)                   // the generic encode(_:)
    | NestedKeyedRequest                              // nestedContainer(keyedBy:)
    | NestedUnkeyedRequest                            // nestedUnkeyedContainer()
    | ValueSuperEncoder                               // superEncoder()

  // ---------------------------------------------------------------------------------------------
  // Handles: which containers a client can name
  // ---------------------------------------------------------------------------------------------

  /** A cell the calls of a value write into: the cell of the encoder they are given, or the
      cell that the nested-container request made as call `m` stored under its key. */
  datatype Cell = Own | Nested(m: nat)

  /** The containers a client holds, per kind, in the order it obtained them, each with the cell
      it views: a container from the encoder views the encoder's own cell, one from
      `nestedContainer` the cell that request stored. Single-value containers all come from the
      encoder. */
  datatype Handles = Handles(keyed: seq<Cell>, unkeyed: seq<Cell>, single: nat)

  /** The containers held after call `i`, `c`. */
  function AfterCall(h: Handles, c: Call, i: nat): Handles {
    match c
    case RequestKeyed => h.(keyed := h.keyed + [Own])
    case RequestUnkeyed => h.(unkeyed := h.unkeyed + [Own])
    case RequestSingleValue => h.(single := h.single + 1)
    case OnKeyed(_, NestedKeyed(_)) => h.(keyed := h.keyed + [Nested(i)])
    case OnKeyed(_, NestedUnkeyed(_)) => h.(unkeyed := h.unkeyed + [Nested(i)])
    case _ => h
  }

  function Opened(calls: seq<Call>): Handles {
    if calls == [] then Handles([], [], 0)
    else AfterCall(Opened(calls[..|calls| - 1]), calls[|calls| - 1], |calls| - 1)
  }

  lemma OpenedStep(calls: seq<Call>, i: nat)
    requires i < |calls|
    ensures Opened(calls[..i + 1]) == AfterCall(Opened(calls[..i]), calls[i], i)
  {
    assert calls[..i + 1][..i] == calls[..i];
  }

  /** A call names a container the client already holds (Swift's type system guarantees this). */
  predicate Names(h: Handles, c: Call) {
    match c
    case OnKeyed(handle, _) => handle < |h.keyed|
    case OnUnkeyed(handle, _) => handle < |h.unkeyed|
    case OnSingleValue(handle, _) => handle < h.single
    case _ => true
  }

  predicate WellFormed(e: Encodable)
    decreases e, 1
  {
    forall i :: 0 <= i < |e.calls| ==> Names(Opened(e.calls[..i]), e.calls[i]) && CallWellFormed(e.calls[i])
  }

  predicate CallWellFormed(c: Call)
    decreases c, 0
  {
    match c
    case OnKeyed(_, EncodeForKey(value, _)) => WellFormed(value)
    case OnUnkeyed(_, EncodeValue(value)) => WellFormed(value)
    case OnSingleValue(_, EncodeValue(value)) => WellFormed(value)
    case _ => true
  }

  // ---------------------------------------------------------------------------------------------
  // Which calls write: the cancelable-node rule
  // ---------------------------------------------------------------------------------------------

  /** `build` returns `nil` for the value: it is neither a `Date` nor `Data`, and none of its calls
      writes into the cell of the encoder it is given. */
  predicate Cancels(e: Encodable)
    decreases e, 4
  {
    e.kind.OtherKind? && !Writes(e)
  }

  /** Some call of the value writes into the cell of the encoder it is given, when it succeeds. */
  predicate Writes(e: Encodable)
    decreases e, 3
  {
    WritesWithin(e, |e.calls|)
  }

  /** One of the first `n` calls of the value writes into the encoder's own cell. */
  predicate WritesWithin(e: Encodable, n: nat)
    requires n <= |e.calls|
    decreases e, 2, n
  {
    n > 0 && (WritesWithin(e, n - 1) || WritesOwnCell(Opened(e.calls[..n - 1]), e.calls[n - 1]))
  }

  /** A call, made while the client holds the containers `h`, that stores into the encoder's own
      cell when it succeeds: a store through a view of that cell, other than of a cancelled value. */
  predicate WritesOwnCell(h: Handles, c: Call)
    decreases c, 1
  {
    match c
    case OnKeyed(handle, op) => handle < |h.keyed| && h.keyed[handle] == Own && KeyedWrites(op)
    case OnUnkeyed(handle, op) => handle < |h.unkeyed| && h.unkeyed[handle] == Own && ValueWrites(op)
    case OnSingleValue(_, op) => ValueWrites(op)
    case _ => false
  }

  /** A keyed call that stores into its container's cell when it succeeds. A nested container
      stores an unset cell under its key, which is a write. */
  predicate KeyedWrites(op: KeyedCall)
    decreases op, 0
  {
    match op
    case EncodeForKey(value, _) => !Cancels(value)
    case KeyedSuperEncoder => false
    case _ => true
  }

  /** An unkeyed or single-value call that stores into its container's cell when it succeeds. */
  predicate ValueWrites(op: ValueCall)
    decreases op, 0
  {
    match op
    case EncodeScalar(_) => true
    case EncodeValue(value) => !Cancels(value)
    case _ => false
  }

  // ---------------------------------------------------------------------------------------------
  // Scripts that cannot fail
  // ---------------------------------------------------------------------------------------------

  /** The calls of a value can neither trap nor throw, when its encoder's cell starts unset: no
      call traps, every nested value can be built, and any two calls that write into the
      encoder's own cell are both keyed or both unkeyed, so a single-value write is the only
      write into that cell. Writes through nested containers cannot conflict: each nested cell
      is written through one container only. */
  predicate Consistent(e: Encodable)
    decreases e, 2
  {
    && (forall i :: 0 <= i < |e.calls| ==> CallSafe(e.calls[i]))
    && (forall i, j ::
          0 <= i < j < |e.calls|
          && WritesOwnCell(Opened(e.calls[..i]), e.calls[i])
          && WritesOwnCell(Opened(e.calls[..j]), e.calls[j])
          ==> SameShape(e.calls[i], e.calls[j]))
  }

  /** A value `build` succeeds on: a `Date`, `Data`, or a value whose calls are consistent. */
  predicate ConsistentValue(v: Encodable)
    decreases v, 3
  {
    !v.kind.OtherKind? || Consistent(v)
  }

  /** A call that reaches no `fatalError` and whose nested value, if any, can be built. */
  predicate CallSafe(c: Call)
    decreases c, 2
  {
    match c
    case OnKeyed(_, op) => KeyedSafe(op)
    case OnUnkeyed(_, op) => ValueSafe(op)
    case OnSingleValue(_, op) => ValueSafe(op)
    case _ => true
  }

  /** A keyed call that reaches no `fatalError` and whose value, if any, can be built. */
  predicate KeyedSafe(op: KeyedCall)
    decreases op, 1
  {
    match op
    case EncodeScalarForKey(scalar, _) => !(scalar.Unsigned? && scalar.u > Int64Max)
    case EncodeForKey(value, _) => ConsistentValue(value)
    case KeyedSuperEncoder => false
    case _ => true
  }

  /** A call on an unkeyed or single-value container that reaches no `fatalError` and whose
      value, if any, can be built. */
  predicate ValueSafe(op: ValueCall)
    decreases op, 1
  {
    op.EncodeScalar? || (op.EncodeValue? && ConsistentValue(op.value))
  }

  /** Two calls on containers of the same keyed or unkeyed kind. */
  predicate SameShape(c: Call, d: Call) {
    (c.OnKeyed? && d.OnKeyed?) || (c.OnUnkeyed? && d.OnUnkeyed?)
  }

  /** A value of the encoder's cell that a call writing into that cell succeeds on. */
  predicate Admits(c: Call, v: JsonValue) {
    && (c.OnKeyed? ==> AcceptsKeys(v))
    && (c.OnUnkeyed? ==> AcceptsItems(v))
    && (c.OnSingleValue? ==> v.None?)
  }

  /** The shape a keyed or unkeyed call leaves the encoder's cell in. */
  predicate Fits(c: Call, v: JsonValue) {
    && (c.OnKeyed? ==> v.Dictionary?)
    && (c.OnUnkeyed? ==> v.Array?)
  }

  /** Some call among the first `n` writes into the encoder's own cell. */
  lemma {:induction false} WritingCall(e: Encodable, n: nat)
    requires n <= |e.calls| && WritesWithin(e, n)
    ensures exists k :: 0 <= k < n && WritesOwnCell(Opened(e.calls[..k]), e.calls[k])
    decreases n
  {
    if !WritesOwnCell(Opened(e.calls[..n - 1]), e.calls[n - 1]) {
      WritingCall(e, n - 1);
    }
  }

  /** Every call among the first `n` of `e` that writes into the encoder's cell fits `v`. */
  ghost predicate FitsWrites(e: Encodable, n: nat, v: JsonValue)
    requires n <= |e.calls|
  {
    forall k :: 0 <= k < n && WritesOwnCell(Opened(e.calls[..k]), e.calls[k]) ==> Fits(e.calls[k], v)
  }

  /** In a consistent script on a cell that starts unset, the cell admits every writing call: it
      is still unset, or holds the shape of the earlier writes, which is the call's own. */
  lemma AdmitsNext(e: Encodable, i: nat, v: JsonValue)
    requires i < |e.calls| && Consistent(e)
    requires !WritesWithin(e, i) ==> v.None?
    requires FitsWrites(e, i, v)
    ensures WritesOwnCell(Opened(e.calls[..i]), e.calls[i]) ==> Admits(e.calls[i], v)
  {
    if WritesOwnCell(Opened(e.calls[..i]), e.calls[i]) && WritesWithin(e, i) {
      WritingCall(e, i);
      var k :| 0 <= k < i && WritesOwnCell(Opened(e.calls[..k]), e.calls[k]);
      assert SameShape(e.calls[k], e.calls[i]);
    }
  }

  /** After one more call of a consistent script, every writing call so far still fits the cell. */
  lemma FitsNext(e: Encodable, i: nat, v: JsonValue, v': JsonValue)
    requires i < |e.calls| && Consistent(e)
    requires FitsWrites(e, i, v)
    requires !WritesOwnCell(Opened(e.calls[..i]), e.calls[i]) ==> v' == v
    requires WritesOwnCell(Opened(e.calls[..i]), e.calls[i]) ==> Fits(e.calls[i], v')
    ensures FitsWrites(e, i + 1, v')
  {
    forall k | 0 <= k < i && WritesOwnCell(Opened(e.calls[..k]), e.calls[k])
      ensures Fits(e.calls[k], v')
    {
      if WritesOwnCell(Opened(e.calls[..i]), e.calls[i]) {
        assert SameShape(e.calls[k], e.calls[i]);
      }
    }
  }

  // ---------------------------------------------------------------------------------------------
  // Scalars
  // ---------------------------------------------------------------------------------------------

  /** What the keyed container stores for a scalar: unsigned integers go under the signed
      `.integer` tag, through `Int64(_)`, which traps above `Int64.max`. */
  function KeyedScalarValue(scalar: Scalar): (v: JsonValue)
    requires scalar.Unsigned? ==> scalar.u <= Int64Max
    ensures IsLeaf(v) && !v.None? && !v.UnsignedInteger?
  {
    match scalar
    case Nil => Null
    case Boolean(b) => Bool(b)
    case Signed(i) => Integer(i)
    case Unsigned(u) => Integer(u)
    case FloatValue(f) => Float(f)
    case DoubleValue(d) => Double(d)
    case Text(s) => String(s)
  }

  /** What the unkeyed and single-value containers store for a scalar: unsigned integers keep the
      `.unsignedInteger` tag. */
  function ScalarValue(scalar: Scalar): (v: JsonValue)
    ensures IsLeaf(v) && !v.None?
    ensures v.UnsignedInteger? <==> scalar.Unsigned?
  {
    match scalar
    case Nil => Null
    case Boolean(b) => Bool(b)
    case Signed(i) => Integer(i)
    case Unsigned(u) => UnsignedInteger(u)
    case FloatValue(f) => Float(f)
    case DoubleValue(d) => Double(d)
    case Text(s) => String(s)
  }

  /** The entries of a cell that is about to receive a key: none if it is unset. */
  function EntriesOf(v: JsonValue): map<string, Box> {
    if v.Dictionary? then v.entries else map[]
  }

  /** The elements of a cell that is about to receive an element: none if it is unset. */
  function ItemsOf(v: JsonValue): seq<Box> {
    if v.Array? then v.items else []
  }

  /** A cell `set(_:forKey:)` succeeds on. */
  predicate AcceptsKeys(v: JsonValue) {
    v.None? || v.Dictionary?
  }

  /** A cell `append` succeeds on. */
  predicate AcceptsItems(v: JsonValue) {
    v.None? || v.Array?
  }


  // ---------------------------------------------------------------------------------------------
  // What the calls mean
  // ---------------------------------------------------------------------------------------------

  /** The JSON value a scalar stands for. Both tags an unsigned integer can get print the same
      digits, so the keyed container's `.integer` and the others' `.unsignedInteger` mean the
      same number. */
  function ScalarJson(scalar: Scalar): Json {
    match scalar
    case Nil => JNull
    case Boolean(b) => JBool(b)
    case Signed(i) => JNumber(DecimalText(i))
    case Unsigned(u) => JNumber(DecimalText(u))
    case FloatValue(f) => JNumber(f)
    case DoubleValue(d) => JNumber(d)
    case Text(t) => JString(t)
  }

  /** A call on a container, rather than a request for one. */
  predicate OnContainer(c: Call) {
    c.OnKeyed? || c.OnUnkeyed? || c.OnSingleValue?
  }

  /** The cell a call on a container writes into, given the containers held. */
  function Target(h: Handles, c: Call): Option<Cell> {
    match c
    case OnKeyed(handle, _) => if handle < |h.keyed| then Some(h.keyed[handle]) else Option.None
    case OnUnkeyed(handle, _) => if handle < |h.unkeyed| then Some(h.unkeyed[handle]) else Option.None
    case OnSingleValue(_, _) => Some(Own)
    case _ => Option.None
  }

  /** The first call that can write into a cell: a nested cell exists from the call after the
      request that made it. */
  function Start(c: Cell): nat {
    if c.Own? then 0 else c.m + 1
  }

  /** A reference held by a cell under construction: a value that is finished, or a nested cell
      that later calls may still write into. */
  datatype Ref = Fixed(json: Option<Json>) | Live(m: nat)

  /** A cell under construction, as the calls so far have written it: not at all, as keyed
      entries, as unkeyed elements, or once, with a single value. */
  datatype Shape = Blank | Fields(fields: map<string, Ref>) | Elements(refs: seq<Ref>) | Single(json: Option<Json>)

  function FieldsOf(s: Shape): map<string, Ref> {
    if s.Fields? then s.fields else map[]
  }

  function RefsOf(s: Shape): seq<Ref> {
    if s.Elements? then s.refs else []
  }

  /** What a keyed store other than a nested-container request puts under its key. */
  function KeyedPayload(op: KeyedCall): Option<Json>
    decreases op, 0
  {
    match op
    case EncodeScalarForKey(scalar, _) => Some(ScalarJson(scalar))
    case EncodeForKey(value, _) => Built(value)
    case _ => Option.None
  }

  /** What an unkeyed or single-value store puts into its cell. */
  function ValuePayload(op: ValueCall): Option<Json>
    decreases op, 0
  {
    match op
    case EncodeScalar(scalar) => Some(ScalarJson(scalar))
    case EncodeValue(value) => Built(value)
    case _ => Option.None
  }

  /** What call `i`, `c`, does to the cell it writes into, which the calls before it left as `s`:
      a keyed store puts its value, or for a nested container the new cell, under its key; an
      unkeyed store appends its value; a single-value store sets the cell; a call that writes
      nothing leaves it. */
  function Effect(s: Shape, c: Call, i: nat): Shape
    decreases c, 1
  {
    match c
    case OnKeyed(_, op) =>
      (match op
       case NestedKeyed(key) => Fields(FieldsOf(s)[key := Live(i)])
       case NestedUnkeyed(key) => Fields(FieldsOf(s)[key := Live(i)])
       case KeyedSuperEncoder => s
       case _ => if KeyedWrites(op) then Fields(FieldsOf(s)[op.key := Fixed(KeyedPayload(op))]) else s)
    case OnUnkeyed(_, op) =>
      if ValueWrites(op) then Elements(RefsOf(s) + [Fixed(ValuePayload(op))]) else s
    case OnSingleValue(_, op) =>
      if ValueWrites(op) then Single(ValuePayload(op)) else s
    case _ => s
  }

  /** The cell `c` after the first `n` calls of `e`. */
  function Progress(e: Encodable, c: Cell, n: nat): Shape
    requires n <= |e.calls| && (c.Nested? ==> c.m < |e.calls|)
    decreases e, |e.calls| - Start(c), 2, n
  {
    if n <= Start(c) then Blank
    else
      var before := Progress(e, c, n - 1);
      if Target(Opened(e.calls[..n - 1]), e.calls[n - 1]) == Some(c) then Effect(before, e.calls[n - 1], n - 1)
      else before
  }

  /** The JSON value cell `c` holds once all calls of `e` are done: `None` while nothing is
      written into it. */
  function Contents(e: Encodable, c: Cell): Option<Json>
    requires c.Nested? ==> c.m < |e.calls|
    decreases e, |e.calls| - Start(c), 3
  {
    Finish(e, Progress(e, c, |e.calls|), Start(c))
  }

  /** The JSON value of a finished cell of shape `s`, whose nested cells were made from call `lo`
      on. An entry or element whose cell is still unset is absent, as in `jsonString`. */
  function Finish(e: Encodable, s: Shape, lo: nat): Option<Json>
    requires lo <= |e.calls|
    decreases e, |e.calls| - lo, 2
  {
    match s
    case Blank => Option.None
    case Fields(fields) =>
      Some(JObject(map k | k in fields && Resolve(e, fields[k], lo).Some? :: Resolve(e, fields[k], lo).value))
    case Elements(refs) => Some(JArray(ResolveAll(e, refs, lo)))
    case Single(json) => json
  }

  function Resolve(e: Encodable, r: Ref, lo: nat): Option<Json>
    requires lo <= |e.calls|
    decreases e, |e.calls| - lo, 0
  {
    match r
    case Fixed(json) => json
    case Live(m) => if lo <= m < |e.calls| then Contents(e, Nested(m)) else Option.None
  }

  function ResolveAll(e: Encodable, refs: seq<Ref>, lo: nat): seq<Json>
    requires lo <= |e.calls|
    decreases e, |e.calls| - lo, 1, |refs|
  {
    if refs == [] then []
    else
      var head := Resolve(e, refs[0], lo);
      (if head.Some? then [head.value] else []) + ResolveAll(e, refs[1..], lo)
  }

  /** The JSON value that encoding `e` into an unset cell denotes. */
  function Encoded(e: Encodable): Option<Json>
    decreases e, |e.calls| + 1
  {
    Contents(e, Own)
  }

  /** The JSON value `build` makes of `v`: its string for a `Date` or `Data`, otherwise what its
      calls denote. */
  function Built(v: Encodable): Option<Json>
    decreases v, |v.calls| + 2
  {
    match v.kind
    case DateKind(iso8601DateTime) => Some(JString(iso8601DateTime))
    case DataKind(base64) => Some(JString(base64))
    case OtherKind => Encoded(v)
  }

  /** Every nested cell the shape `s` refers to was made by a call in `lo..hi - 1`. */
  predicate RefsBetween(s: Shape, lo: nat, hi: nat) {
    && (forall k :: k in FieldsOf(s) && FieldsOf(s)[k].Live? ==> lo <= FieldsOf(s)[k].m < hi)
    && (forall j :: 0 <= j < |RefsOf(s)| && RefsOf(s)[j].Live? ==> lo <= RefsOf(s)[j].m < hi)
  }

  /** A cell refers only to nested cells made after it and before the calls so far. */
  lemma {:induction false} ProgressRefs(e: Encodable, c: Cell, n: nat)
    requires n <= |e.calls| && (c.Nested? ==> c.m < |e.calls|)
    ensures RefsBetween(Progress(e, c, n), Start(c), n)
    decreases n
  {
    if n > Start(c) {
      ProgressRefs(e, c, n - 1);
    }
  }

  /** The encoder's own cell holds a single value only after a single-value store. */
  lemma {:induction false} SingleAfterSingleValue(e: Encodable, n: nat)
    requires n <= |e.calls| && Progress(e, Own, n).Single?
    ensures exists k :: 0 <= k < n && e.calls[k].OnSingleValue? && WritesOwnCell(Opened(e.calls[..k]), e.calls[k])
    decreases n
  {
    var c := e.calls[n - 1];
    if !(c.OnSingleValue? && ValueWrites(c.single)) {
      SingleAfterSingleValue(e, n - 1);
    }
  }

  /** In a consistent script, a call that writes into the encoder's own cell finds no single
      value there: a single-value store is the only write into that cell. */
  lemma OwnNotSingle(e: Encodable, i: nat)
    requires i < |e.calls| && Consistent(e)
    ensures WritesOwnCell(Opened(e.calls[..i]), e.calls[i]) ==> !Progress(e, Own, i).Single?
  {
    if WritesOwnCell(Opened(e.calls[..i]), e.calls[i]) && Progress(e, Own, i).Single? {
      SingleAfterSingleValue(e, i);
      assert false;
    }
  }

  /** A nested cell never holds a single value: no single-value container views it. */
  lemma {:induction false} NestedNotSingle(e: Encodable, m: nat, n: nat)
    requires m < |e.calls| && n <= |e.calls|
    ensures !Progress(e, Nested(m), n).Single?
    decreases n
  {
    if n > m + 1 {
      NestedNotSingle(e, m, n - 1);
    }
  }

  // ---------------------------------------------------------------------------------------------
  // Worked examples
  // ---------------------------------------------------------------------------------------------

  /** `42` encoded through a single-value container. */
  const FortyTwo := Encodable(OtherKind, [RequestSingleValue, OnSingleValue(0, EncodeScalar(Signed(42)))])

  /** `true` encoded through a single-value container. */
  const True := Encodable(OtherKind, [RequestSingleValue, OnSingleValue(0, EncodeScalar(Boolean(true)))])

  /** A value that encodes no calls at all: `build` cancels it. */
  const Nothing := Encodable(OtherKind, [])

  /** A struct with two keyed properties, `a = 1` and `b`, whose value cancels. */
  const WithCancelled := Encodable(OtherKind, [
    RequestKeyed,
    OnKeyed(0, EncodeScalarForKey(Signed(1), "a")),
    OnKeyed(0, EncodeForKey(Nothing, "b"))])

  /** `42` cannot fail and denotes the number 42. */
  lemma FortyTwoEncoded()
    ensures Consistent(FortyTwo) && Encoded(FortyTwo) == Some(JNumber("42"))
  {
    assert Digits(42) == Digits(4) + [DigitChar(2)] == "42";
    assert Progress(FortyTwo, Own, 1) == Blank;
    assert Progress(FortyTwo, Own, 2) == Single(Some(JNumber("42")));
  }

  /** `true` cannot fail and denotes `true`. */
  lemma TrueEncoded()
    ensures Consistent(True) && Encoded(True) == Some(JBool(true))
  {
  }

  /** The struct's calls cannot fail, although one of its properties cancels. */
  lemma WithCancelledConsistent()
    ensures Cancels(Nothing) && Consistent(WithCancelled)
  {
    var calls := WithCancelled.calls;
    assert ConsistentValue(Nothing);
    forall i, j | 0 <= i < j < |calls| && WritesOwnCell(Opened(calls[..i]), calls[i])
      ensures SameShape(calls[i], calls[j])
    {
      assert i != 0;
    }
  }

  /** The cancelled property is left out of the object: it holds `a` only. */
  lemma WithCancelledEncoded()
    ensures Encoded(WithCancelled) == Some(JObject(map["a" := JNumber("1")]))
  {
    var calls := WithCancelled.calls;
    assert Opened(calls[..1]) == Handles([Own], [], 0);
    assert Opened(calls[..2]) == Handles([Own], [], 0);
    assert Digits(1) == "1";
    assert Progress(WithCancelled, Own, 1) == Blank;
    var fields := map["a" := Fixed(Some(JNumber("1")))];
    assert Progress(WithCancelled, Own, 2) == Fields(fields);
    assert Progress(WithCancelled, Own, 3) == Fields(fields);
    var members := map k | k in fields && Resolve(WithCancelled, fields[k], 0).Some? :: Resolve(WithCancelled, fields[k], 0).value;
    assert members.Keys == {"a"} && members["a"] == JNumber("1");
    assert members == map["a" := JNumber("1")];
    assert Finish(WithCancelled, Fields(fields), 0) == Some(JObject(members));
  }
}

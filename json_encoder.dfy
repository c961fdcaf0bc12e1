/** The encoder side of the cancelable-node JSON encoder: `JSONWithCancelableNodesEncoder`, its
    keyed, unkeyed and single-value containers, and `BoxedValue.build`, carrying out the calls of
    a client value (`Encodables`) on cells, and the proof that the cells end up denoting what
    those calls mean. */
module JsonEncoding {
  import opened Outcomes
  import opened JsonText
  import opened JsonNodes
  import opened JsonReading
  import opened Encodables

  /** How an encoding ends when it does not succeed: an error thrown by a cell, or a trap. */
  datatype Failure = Thrown(error: EncodingError) | Trapped(reason: string)

  const UnsignedOverflow := "Int64(UInt64) overflow"
  const NestedInNonDictionary := "nestedContainer on a cell that holds neither nothing nor a dictionary"
  const SuperEncoderUnsupported := "JSONWithCancelableNodesEncoding does not support super encoders"
  const NestedKeyedUnsupported := "encoding a nested container is not supported"
  const NestedUnkeyedUnsupported := "encoding a nested unkeyed container is not supported"

  /** `b`, which held `before`, now holds `before`'s entries and, under `key`, a cell allocated
      since `nodes`: the other entries are unchanged. */
  ghost predicate StoredUnder(b: Box, key: string, before: JsonValue, nodes: set<Box>, nodes': set<Box>)
    reads b
  {
    && b.value.Dictionary?
    && key in b.value.entries
    && b.value.entries == EntriesOf(before)[key := b.value.entries[key]]
    && b.value.entries[key] in nodes' - nodes
  }

  /** `b`, which held `before`, now holds `before`'s elements and one more at the end, a cell
      allocated since `nodes`. */
  ghost predicate AppendedTo(b: Box, before: JsonValue, nodes: set<Box>, nodes': set<Box>)
    reads b
  {
    && b.value.Array?
    && |b.value.items| == |ItemsOf(before)| + 1
    && b.value.items[..|ItemsOf(before)|] == ItemsOf(before)
    && b.value.items[|ItemsOf(before)|] in nodes' - nodes
  }

  /** The last element of an array cell. */
  function LastItem(b: Box): Box
    reads b
    requires b.value.Array? && b.value.items != []
  {
    b.value.items[|b.value.items| - 1]
  }

  // ---------------------------------------------------------------------------------------------
  // The encoder
  // ---------------------------------------------------------------------------------------------

  /** `JSONWithCancelableNodesEncoder`; `codingPath` and `userInfo` are passed along unread and are
      not modelled. */
  class Encoder {
    const boxedValue: Box

    /** `init()`: a fresh unset cell. */
    constructor (ghost nodes: set<Box>)
      ensures fresh(boxedValue) && boxedValue.value.None? && boxedValue.birth == |nodes|
    {
      boxedValue := new Box(JsonValue.None, |nodes|);
    }

    /** `container(keyedBy:)`: a keyed view of the encoder's own cell. */
    method Container() returns (c: KeyedEncodingContainer)
      ensures fresh(c) && c.boxedValue == boxedValue
    {
      c := new KeyedEncodingContainer(boxedValue);
    }

    /** `unkeyedContainer()`: an unkeyed view of the encoder's own cell. */
    method UnkeyedContainer() returns (c: UnkeyedEncodingContainer)
      ensures fresh(c) && c.boxedValue == boxedValue
    {
      c := new UnkeyedEncodingContainer(boxedValue);
    }

    /** `singleValueContainer()`: a single-value view of the encoder's own cell. */
    method SingleValueContainer() returns (c: SingleValueEncodingContainer)
      ensures fresh(c) && c.boxedValue == boxedValue
    {
      c := new SingleValueEncodingContainer(boxedValue);
    }

    /** `encode(_:)`: lets the value encode itself into the encoder's cell, then renders the cell.
        The result is empty exactly when the cell is still unset, which for a fresh encoder is
        exactly when the value's calls write nothing into it; otherwise it is the cell's
        rendering. The UTF-8 conversion of the text is not modelled. */
    method Encode(e: Encodable, platform: Platform, ghost nodes: set<Box>)
      returns (r: Result<string, Failure>, ghost nodes': set<Box>)
      requires Closed(nodes) && boxedValue in nodes && WellFormed(e) && IsPlatform(platform)
      modifies boxedValue
      ensures Closed(nodes') && Grows(nodes, nodes') && fresh(nodes' - nodes) && boxedValue in nodes'
      ensures r.Success? ==> (r.value == [] <==> boxedValue.value.None?)
      ensures Consistent(e) && old(boxedValue.value).None? ==> r.Success?
      ensures r.Success? ==> (r.value == [] <==> old(boxedValue.value).None? && !Writes(e))
      ensures r.Success? && r.value != [] ==> boxedValue.JsonString(nodes', platform) == Some(r.value)
      ensures r.Success? && r.value != [] && Readable(nodes', platform) ==> Read(r.value) == Project(boxedValue, nodes')
      ensures Consistent(e) && old(boxedValue.value).None? ==> Project(boxedValue, nodes') == Encoded(e)
      ensures Consistent(e) && old(boxedValue.value).None? ==> (r.value == [] <==> Encoded(e).None?)
      ensures Consistent(e) && old(boxedValue.value).None? && r.value != [] && Readable(nodes', platform) ==>
        Read(r.value) == Encoded(e)
    {
      var s;
      s, nodes' := EncodeTo(e, this, nodes);
      if s.Fail? {
        return Failure(s.error), nodes';
      }
      var text := boxedValue.JsonString(nodes', platform);
      if Readable(nodes', platform) {
        JsonStringReadsBack(boxedValue, nodes', platform);
      }
      if text.Some? {
        r := Success(text.value);
      } else {
        r := Success([]);
      }
    }
  }

  /** `encodable.encode(to: encoder)`: performs the value's calls in order. A call that throws
      ends the encoding (clients propagate errors with `try`); a call that would reach one of the
      source's `fatalError`s ends it as a trap. Besides cells it allocates, only the encoder's own
      cell is written: when every call succeeds, the cell is left exactly as it was if no call
      writes into it, and is set if one does. */
  method EncodeTo(e: Encodable, encoder: Encoder, ghost nodes: set<Box>)
    returns (s: Status<Failure>, ghost nodes': set<Box>)
    requires Closed(nodes) && encoder.boxedValue in nodes && WellFormed(e)
    modifies encoder.boxedValue
    ensures Closed(nodes') && Grows(nodes, nodes') && fresh(nodes' - nodes)
    ensures e.calls == [] ==> s.Pass?
    ensures Consistent(e) && old(encoder.boxedValue.value).None? ==> s.Pass?
    ensures s.Pass? && !Writes(e) ==> encoder.boxedValue.value == old(encoder.boxedValue.value)
    ensures s.Pass? && Writes(e) ==> !encoder.boxedValue.value.None?
    ensures Consistent(e) && old(encoder.boxedValue.value).None? ==>
      encoder.boxedValue in nodes' && Project(encoder.boxedValue, nodes') == Encoded(e)
    decreases e, 2
  {
    var keyed: seq<KeyedEncodingContainer> := [];
    var unkeyed: seq<UnkeyedEncodingContainer> := [];
    var single: seq<SingleValueEncodingContainer> := [];
    nodes' := nodes;
    ghost var kc: set<Box>, uc: set<Box> := {}, {};
    ghost var cells: map<nat, Box> := map[];
    ghost var frozen: map<Box, Option<Json>> := map[];
    ghost var safe := Consistent(e) && encoder.boxedValue.value.None?;
    if safe {
      assert Progress(e, Own, 0) == Blank;
    }
    for i := 0 to |e.calls|
      invariant Closed(nodes') && Grows(nodes, nodes') && fresh(nodes' - nodes)
      invariant Views(Opened(e.calls[..i]), keyed, unkeyed, single, encoder, nodes, nodes', kc, uc, cells)
      invariant forall m :: m in cells ==> m < i
      invariant !WritesWithin(e, i) ==> encoder.boxedValue.value == old(encoder.boxedValue.value)
      invariant WritesWithin(e, i) ==> !encoder.boxedValue.value.None?
      invariant NestedShapes(kc, uc)
      invariant safe ==> Consistent(e) && FitsWrites(e, i, encoder.boxedValue.value)
      invariant safe ==> Tracks(e, i, encoder.boxedValue, cells, frozen, nodes, nodes')
    {
      ghost var before := nodes';
      CallBoxesViewed(Opened(e.calls[..i]), e.calls[i], keyed, unkeyed, single, encoder, nodes, nodes', kc, uc, cells);
      var r;
      r, keyed, unkeyed, single, nodes', kc, uc, cells, frozen :=
        Step(e, i, encoder, keyed, unkeyed, single, nodes, nodes', kc, uc, cells, frozen, safe);
      GrowsTransitive(nodes, before, nodes');
      if r.Fail? {
        return r, nodes';
      }
    }
    if safe {
      TrackedProject(e, encoder.boxedValue, cells, frozen, nodes, nodes');
    }
    s := Pass;
  }

  /** Call `i` of `e`, made on the containers a client holds after the calls before it: keeps them
      matched with the handles; leaves the encoder's own cell as it was unless the call writes into
      it, and set if it does; and, on a cell that started unset under a consistent script,
      succeeds, keeps the cell fitting every write into it and keeps the cells tracking the calls. */
  method Step(e: Encodable, i: nat, encoder: Encoder, keyed: seq<KeyedEncodingContainer>,
              unkeyed: seq<UnkeyedEncodingContainer>, single: seq<SingleValueEncodingContainer>,
              ghost base: set<Box>, ghost nodes: set<Box>, ghost kc: set<Box>, ghost uc: set<Box>,
              ghost cells: map<nat, Box>, ghost frozen: map<Box, Option<Json>>, ghost safe: bool)
    returns (s: Status<Failure>, keyed': seq<KeyedEncodingContainer>, unkeyed': seq<UnkeyedEncodingContainer>,
             single': seq<SingleValueEncodingContainer>, ghost nodes': set<Box>, ghost kc': set<Box>,
             ghost uc': set<Box>, ghost cells': map<nat, Box>, ghost frozen': map<Box, Option<Json>>)
    requires i < |e.calls| && WellFormed(e)
    requires Closed(nodes) && encoder.boxedValue in base && base <= nodes
    requires Views(Opened(e.calls[..i]), keyed, unkeyed, single, encoder, base, nodes, kc, uc, cells)
    requires NestedShapes(kc, uc) && forall m :: m in cells ==> m < i
    requires safe ==> Consistent(e) && (!WritesWithin(e, i) ==> encoder.boxedValue.value.None?)
    requires safe ==> FitsWrites(e, i, encoder.boxedValue.value) && Tracks(e, i, encoder.boxedValue, cells, frozen, base, nodes)
    modifies CallBoxes(e.calls[i], encoder, keyed, unkeyed)
    ensures Closed(nodes') && Grows(nodes, nodes') && fresh(nodes' - nodes)
    ensures s.Pass? ==> Views(Opened(e.calls[..i + 1]), keyed', unkeyed', single', encoder, base, nodes', kc', uc', cells')
    ensures s.Pass? ==> NestedShapes(kc', uc') && forall m :: m in cells' ==> m < i + 1
    ensures s.Pass? ==>
      (WritesWithin(e, i + 1) <==> WritesWithin(e, i) || WritesOwnCell(Opened(e.calls[..i]), e.calls[i]))
    ensures s.Pass? && !WritesOwnCell(Opened(e.calls[..i]), e.calls[i]) ==>
      encoder.boxedValue.value == old(encoder.boxedValue.value)
    ensures s.Pass? && WritesOwnCell(Opened(e.calls[..i]), e.calls[i]) ==> !encoder.boxedValue.value.None?
    ensures safe ==> s.Pass? && FitsWrites(e, i + 1, encoder.boxedValue.value)
    ensures safe ==> Tracks(e, i + 1, encoder.boxedValue, cells', frozen', base, nodes')
    decreases e, 1
  {
    ghost var v := encoder.boxedValue.value;
    var call := e.calls[i];
    OpenedStep(e.calls, i);
    if safe {
      AdmitsNext(e, i, v);
    }
    if OnContainer(call) {
      s, keyed', unkeyed', single', nodes', kc', uc', cells', frozen' :=
        TrackedPerform(e, i, encoder, keyed, unkeyed, single, base, nodes, kc, uc, cells, frozen, safe);
    } else {
      assert Names(Opened(e.calls[..i]), call) && CallWellFormed(call);
      s, keyed', unkeyed', single', nodes', kc', uc', cells' :=
        Perform(call, encoder, keyed, unkeyed, single, Opened(e.calls[..i]), base, nodes, kc, uc, i, cells);
      frozen' := frozen;
      if safe {
        AdvanceRequest(e, i, encoder.boxedValue, cells, frozen, base, nodes);
      }
    }
    if s.Pass? && safe {
      FitsNext(e, i, v, encoder.boxedValue.value);
    }
  }

  /** `Perform` of call `i` of `e`, a call on a container, which, on a cell that started unset
      under a consistent script, keeps the cells tracking the calls. */
  method TrackedPerform(e: Encodable, i: nat, encoder: Encoder, keyed: seq<KeyedEncodingContainer>,
                        unkeyed: seq<UnkeyedEncodingContainer>, single: seq<SingleValueEncodingContainer>,
                        ghost base: set<Box>, ghost nodes: set<Box>, ghost kc: set<Box>, ghost uc: set<Box>,
                        ghost cells: map<nat, Box>, ghost frozen: map<Box, Option<Json>>, ghost safe: bool)
    returns (s: Status<Failure>, keyed': seq<KeyedEncodingContainer>, unkeyed': seq<UnkeyedEncodingContainer>,
             single': seq<SingleValueEncodingContainer>, ghost nodes': set<Box>, ghost kc': set<Box>,
             ghost uc': set<Box>, ghost cells': map<nat, Box>, ghost frozen': map<Box, Option<Json>>)
    requires i < |e.calls| && WellFormed(e) && OnContainer(e.calls[i])
    requires Closed(nodes) && encoder.boxedValue in base && base <= nodes
    requires Views(Opened(e.calls[..i]), keyed, unkeyed, single, encoder, base, nodes, kc, uc, cells)
    requires NestedShapes(kc, uc) && forall m :: m in cells ==> m < i
    requires safe ==> Consistent(e) && Tracks(e, i, encoder.boxedValue, cells, frozen, base, nodes)
    requires safe && WritesOwnCell(Opened(e.calls[..i]), e.calls[i]) ==>
      Admits(e.calls[i], encoder.boxedValue.value)
    modifies CallBoxes(e.calls[i], encoder, keyed, unkeyed)
    ensures Closed(nodes') && Grows(nodes, nodes') && fresh(nodes' - nodes)
    ensures s.Pass? ==>
      Views(AfterCall(Opened(e.calls[..i]), e.calls[i], i), keyed', unkeyed', single', encoder, base, nodes', kc', uc', cells')
    ensures s.Pass? ==> NestedShapes(kc', uc') && forall m :: m in cells' ==> m < i + 1
    ensures s.Pass? && !WritesOwnCell(Opened(e.calls[..i]), e.calls[i]) ==>
      encoder.boxedValue.value == old(encoder.boxedValue.value)
    ensures s.Pass? && WritesOwnCell(Opened(e.calls[..i]), e.calls[i]) ==>
      !encoder.boxedValue.value.None? && Fits(e.calls[i], encoder.boxedValue.value)
    ensures safe ==> s.Pass? && Tracks(e, i + 1, encoder.boxedValue, cells', frozen', base, nodes')
    decreases e, 0
  {
    ghost var h := Opened(e.calls[..i]);
    var call := e.calls[i];
    assert Names(h, call) && CallWellFormed(call);
    ghost var heap := Snapshot(nodes);
    ghost var cell: Cell, target: Box := Own, encoder.boxedValue;
    if safe {
      TakeSnapshot(e, i, encoder.boxedValue, cells, frozen, base, nodes);
      cell, target := Target(h, call).value, TargetBox(call, encoder, keyed, unkeyed);
      assert target == BoxOf(cell, encoder.boxedValue, cells);
    }
    s, keyed', unkeyed', single', nodes', kc', uc', cells' :=
      Perform(call, encoder, keyed, unkeyed, single, h, base, nodes, kc, uc, i, cells);
    frozen' := frozen;
    if safe {
      frozen' := AdvanceStore(e, i, encoder.boxedValue, cell, target, heap, cells, cells', frozen, base, nodes, nodes');
    }
  }

  /** The containers a client holds, matched with `h`: each keyed or unkeyed one views the cell
      `h` names for it, the encoder's own cell or the nested cell `cells[m]` that request `m`
      made, which is one of `kc` for a keyed container and of `uc` for an unkeyed one; every
      single-value one views the encoder's own cell. The nested cells `kc` and `uc` are apart,
      and allocated since the encoding began with the cells `base`. */
  ghost predicate Views(h: Handles, keyed: seq<KeyedEncodingContainer>, unkeyed: seq<UnkeyedEncodingContainer>,
                        single: seq<SingleValueEncodingContainer>, encoder: Encoder, base: set<Box>, nodes: set<Box>,
                        kc: set<Box>, uc: set<Box>, cells: map<nat, Box>)
  {
    && |keyed| == |h.keyed| && |unkeyed| == |h.unkeyed| && |single| == h.single
    && (forall j :: 0 <= j < |keyed| ==> ViewOf(keyed[j].boxedValue, h.keyed[j], encoder, kc, cells))
    && (forall j :: 0 <= j < |unkeyed| ==> ViewOf(unkeyed[j].boxedValue, h.unkeyed[j], encoder, uc, cells))
    && (forall c :: c in single ==> c.boxedValue == encoder.boxedValue)
    && kc + uc <= nodes - base && kc !! uc
  }

  /** A call writes only into the encoder's own cell or a nested cell allocated since the encoding
      began. */
  lemma CallBoxesViewed(h: Handles, c: Call, keyed: seq<KeyedEncodingContainer>, unkeyed: seq<UnkeyedEncodingContainer>,
                        single: seq<SingleValueEncodingContainer>, encoder: Encoder, base: set<Box>, nodes: set<Box>,
                        kc: set<Box>, uc: set<Box>, cells: map<nat, Box>)
    requires Views(h, keyed, unkeyed, single, encoder, base, nodes, kc, uc, cells)
    ensures CallBoxes(c, encoder, keyed, unkeyed) <= {encoder.boxedValue} + (nodes - base)
  {
  }

  /** `b` is the box of `cell`: the encoder's own, or the nested `cells[m]`, one of `views`. */
  ghost predicate ViewOf(b: Box, cell: Cell, encoder: Encoder, views: set<Box>, cells: map<nat, Box>) {
    match cell
    case Own => b == encoder.boxedValue
    case Nested(m) => b in views && m in cells && cells[m] == b
  }

  /** The nested cells hold what their containers write: a keyed container's cell is unset or a
      dictionary, an unkeyed container's cell is unset or an array. */
  ghost predicate NestedShapes(kc: set<Box>, uc: set<Box>)
    reads kc, uc
  {
    && (forall b :: b in kc ==> AcceptsKeys(b.value))
    && (forall b :: b in uc ==> AcceptsItems(b.value))
  }

  /** The views stay views as more cells are allocated. */
  lemma ViewsGrow(h: Handles, keyed: seq<KeyedEncodingContainer>, unkeyed: seq<UnkeyedEncodingContainer>,
                  single: seq<SingleValueEncodingContainer>, encoder: Encoder, base: set<Box>,
                  nodes: set<Box>, nodes': set<Box>, kc: set<Box>, uc: set<Box>, cells: map<nat, Box>)
    requires Views(h, keyed, unkeyed, single, encoder, base, nodes, kc, uc, cells) && nodes <= nodes'
    ensures Views(h, keyed, unkeyed, single, encoder, base, nodes', kc, uc, cells)
  {
  }

  /** A container over a cell allocated since `nodes` by request `index` joins the keyed views. */
  lemma ViewsAddKeyed(h: Handles, keyed: seq<KeyedEncodingContainer>, unkeyed: seq<UnkeyedEncodingContainer>,
                      single: seq<SingleValueEncodingContainer>, n: KeyedEncodingContainer, encoder: Encoder,
                      base: set<Box>, nodes: set<Box>, nodes': set<Box>, kc: set<Box>, uc: set<Box>,
                      cells: map<nat, Box>, index: nat)
    requires Views(h, keyed, unkeyed, single, encoder, base, nodes, kc, uc, cells) && base <= nodes <= nodes'
    requires n.boxedValue in nodes' - nodes && index !in cells
    ensures Views(h.(keyed := h.keyed + [Nested(index)]), keyed + [n], unkeyed, single, encoder, base, nodes',
                  kc + {n.boxedValue}, uc, cells[index := n.boxedValue])
  {
    var keyed', h', cells' := keyed + [n], h.(keyed := h.keyed + [Nested(index)]), cells[index := n.boxedValue];
    forall j | 0 <= j < |keyed'| ensures ViewOf(keyed'[j].boxedValue, h'.keyed[j], encoder, kc + {n.boxedValue}, cells') {
      if j < |keyed| {
        assert ViewOf(keyed[j].boxedValue, h.keyed[j], encoder, kc, cells);
      }
    }
    forall j | 0 <= j < |unkeyed| ensures ViewOf(unkeyed[j].boxedValue, h'.unkeyed[j], encoder, uc, cells') {
      assert ViewOf(unkeyed[j].boxedValue, h.unkeyed[j], encoder, uc, cells);
    }
  }

  /** A container over a cell allocated since `nodes` by request `index` joins the unkeyed views. */
  lemma ViewsAddUnkeyed(h: Handles, keyed: seq<KeyedEncodingContainer>, unkeyed: seq<UnkeyedEncodingContainer>,
                        single: seq<SingleValueEncodingContainer>, n: UnkeyedEncodingContainer, encoder: Encoder,
                        base: set<Box>, nodes: set<Box>, nodes': set<Box>, kc: set<Box>, uc: set<Box>,
                        cells: map<nat, Box>, index: nat)
    requires Views(h, keyed, unkeyed, single, encoder, base, nodes, kc, uc, cells) && base <= nodes <= nodes'
    requires n.boxedValue in nodes' - nodes && index !in cells
    ensures Views(h.(unkeyed := h.unkeyed + [Nested(index)]), keyed, unkeyed + [n], single, encoder, base, nodes',
                  kc, uc + {n.boxedValue}, cells[index := n.boxedValue])
  {
    var unkeyed', h', cells' := unkeyed + [n], h.(unkeyed := h.unkeyed + [Nested(index)]), cells[index := n.boxedValue];
    forall j | 0 <= j < |unkeyed'| ensures ViewOf(unkeyed'[j].boxedValue, h'.unkeyed[j], encoder, uc + {n.boxedValue}, cells') {
      if j < |unkeyed| {
        assert ViewOf(unkeyed[j].boxedValue, h.unkeyed[j], encoder, uc, cells);
      }
    }
    forall j | 0 <= j < |keyed| ensures ViewOf(keyed[j].boxedValue, h'.keyed[j], encoder, kc, cells') {
      assert ViewOf(keyed[j].boxedValue, h.keyed[j], encoder, kc, cells);
    }
  }

  /** A call that opens a nested container. */
  predicate OpensNested(c: Call) {
    c.OnKeyed? && (c.keyed.NestedKeyed? || c.keyed.NestedUnkeyed?)
  }

  /** The box of the cell a call on a container writes into. */
  function TargetBox(c: Call, encoder: Encoder, keyed: seq<KeyedEncodingContainer>,
                     unkeyed: seq<UnkeyedEncodingContainer>): Box
    requires OnContainer(c)
    requires c.OnKeyed? ==> c.handle < |keyed|
    requires c.OnUnkeyed? ==> c.handle < |unkeyed|
  {
    match c
    case OnKeyed(handle, _) => keyed[handle].boxedValue
    case OnUnkeyed(handle, _) => unkeyed[handle].boxedValue
    case OnSingleValue(_, _) => encoder.boxedValue
  }

  /** The boxes a call may write into: its target's, for a call on a container held. */
  function CallBoxes(c: Call, encoder: Encoder, keyed: seq<KeyedEncodingContainer>,
                     unkeyed: seq<UnkeyedEncodingContainer>): set<Box>
  {
    if OnContainer(c) && (c.OnKeyed? ==> c.handle < |keyed|) && (c.OnUnkeyed? ==> c.handle < |unkeyed|)
    then {TargetBox(c, encoder, keyed, unkeyed)}
    else {}
  }

  /** What a successful keyed call left in its container's cell `b`, which held `before`: when it
      writes, `before`'s entries and one new cell under its key, which denotes the stored value
      or, for a nested container, is the one cell allocated and is unset. */
  ghost predicate LandedKeyed(op: KeyedCall, b: Box, before: JsonValue, nodes: set<Box>, nodes': set<Box>)
    requires Closed(nodes') && b in nodes'
    reads b, nodes'
  {
    if !KeyedWrites(op) then b.value == before
    else
      && AcceptsKeys(before)
      && StoredUnder(b, op.key, before, nodes, nodes')
      && (if op.NestedKeyed? || op.NestedUnkeyed? then
            && b.value.entries[op.key] !in nodes && nodes' == nodes + {b.value.entries[op.key]}
            && b.value.entries[op.key].value.None?
          else Project(b.value.entries[op.key], nodes') == KeyedPayload(op))
  }

  /** What a successful unkeyed call left in its container's cell `b`, which held `before`: when
      it writes, `before`'s elements and one new cell at the end, denoting the stored value. */
  ghost predicate LandedUnkeyed(op: ValueCall, b: Box, before: JsonValue, nodes: set<Box>, nodes': set<Box>)
    requires Closed(nodes') && b in nodes'
    reads b, nodes'
  {
    if !ValueWrites(op) then b.value == before
    else AcceptsItems(before) && AppendedTo(b, before, nodes, nodes') && Project(LastItem(b), nodes') == ValuePayload(op)
  }

  /** What a successful single-value call left in the cell `b`, which held `before`: when it
      writes, `b` was unset and now denotes the stored value, through new cells only. */
  ghost predicate LandedSingle(op: ValueCall, b: Box, before: JsonValue, nodes: set<Box>, nodes': set<Box>)
    requires Closed(nodes') && b in nodes'
    reads b, nodes'
  {
    if !ValueWrites(op) then b.value == before
    else before.None? && !b.value.None? && Children(b.value) <= nodes' - nodes && Project(b, nodes') == ValuePayload(op)
  }

  ghost predicate Landed(c: Call, b: Box, before: JsonValue, nodes: set<Box>, nodes': set<Box>)
    requires Closed(nodes') && b in nodes'
    reads b, nodes'
  {
    match c
    case OnKeyed(_, op) => LandedKeyed(op, b, before, nodes, nodes')
    case OnUnkeyed(_, op) => LandedUnkeyed(op, b, before, nodes, nodes')
    case OnSingleValue(_, op) => LandedSingle(op, b, before, nodes, nodes')
    case _ => true
  }

  /** `b` holds the cell `n` under `key`. */
  ghost predicate EntryIs(b: Box, key: string, n: Box)
    reads b
  {
    b.value.Dictionary? && key in b.value.entries && b.value.entries[key] == n
  }

  /** The nested cell that a request stored under `key` in `b` is recorded as `cells'[index]`. */
  ghost predicate Recorded(cells: map<nat, Box>, cells': map<nat, Box>, index: nat, b: Box, key: string)
    reads b
  {
    b.value.Dictionary? && key in b.value.entries && cells' == cells[index := b.value.entries[key]]
  }

  /** One call of a value being encoded into `encoder`, call `index` of the script, on the
      containers obtained so far (`h` names the cell each views): a request yields a new
      container, a call on a container is carried out by it. Only the cell the call writes into
      changes, and a successful call changes the encoder's own cell exactly when it writes
      through a view of that cell, and then leaves it set. What a successful safe call leaves in
      its cell is `Landed`; a nested container it opens views a new cell, recorded as
      `cells'[index]`. */
  method Perform(call: Call, encoder: Encoder, keyed: seq<KeyedEncodingContainer>,
                 unkeyed: seq<UnkeyedEncodingContainer>, single: seq<SingleValueEncodingContainer>,
                 ghost h: Handles, ghost base: set<Box>, ghost nodes: set<Box>, ghost kc: set<Box>, ghost uc: set<Box>,
                 ghost index: nat, ghost cells: map<nat, Box>)
    returns (s: Status<Failure>, keyed': seq<KeyedEncodingContainer>, unkeyed': seq<UnkeyedEncodingContainer>,
             single': seq<SingleValueEncodingContainer>, ghost nodes': set<Box>, ghost kc': set<Box>, ghost uc': set<Box>,
             ghost cells': map<nat, Box>)
    requires Closed(nodes) && encoder.boxedValue in base && base <= nodes
    requires CallWellFormed(call) && Names(h, call)
    requires Views(h, keyed, unkeyed, single, encoder, base, nodes, kc, uc, cells) && NestedShapes(kc, uc)
    requires forall m :: m in cells ==> m < index
    modifies CallBoxes(call, encoder, keyed, unkeyed)
    ensures Closed(nodes') && Grows(nodes, nodes') && fresh(nodes' - nodes)
    ensures s.Pass? ==> Views(AfterCall(h, call, index), keyed', unkeyed', single', encoder, base, nodes', kc', uc', cells')
    ensures s.Pass? ==> NestedShapes(kc', uc')
    ensures s.Pass? && !WritesOwnCell(h, call) ==> encoder.boxedValue.value == old(encoder.boxedValue.value)
    ensures s.Pass? && WritesOwnCell(h, call) ==> !encoder.boxedValue.value.None? && Fits(call, encoder.boxedValue.value)
    ensures call.RequestKeyed? || call.RequestUnkeyed? || call.RequestSingleValue? ==> s.Pass?
    ensures CallSafe(call) && (WritesOwnCell(h, call) ==> Admits(call, old(encoder.boxedValue.value))) ==> s.Pass?
    ensures !OnContainer(call) ==> nodes' == nodes
    ensures s.Pass? && CallSafe(call) && OnContainer(call) ==>
      Landed(call, TargetBox(call, encoder, keyed, unkeyed), old(TargetBox(call, encoder, keyed, unkeyed).value), nodes, nodes')
    ensures s.Pass? && OpensNested(call) ==>
      Recorded(cells, cells', index, TargetBox(call, encoder, keyed, unkeyed), call.keyed.key)
    ensures !(s.Pass? && OpensNested(call)) ==> cells' == cells
    ensures cells'.Keys <= cells.Keys + {index}
    decreases call, 8
  {
    keyed', unkeyed', single', nodes', kc', uc', cells' := keyed, unkeyed, single, nodes, kc, uc, cells;
    match call {
      case RequestKeyed =>
        var c := encoder.Container();
        keyed' := keyed + [c];
        s := Pass;
      case RequestUnkeyed =>
        var c := encoder.UnkeyedContainer();
        unkeyed' := unkeyed + [c];
        s := Pass;
      case RequestSingleValue =>
        var c := encoder.SingleValueContainer();
        single' := single + [c];
        s := Pass;
      case OnKeyed(handle, op) =>
        s, keyed', unkeyed', nodes', kc', uc', cells' :=
          PerformOnKeyed(handle, op, encoder, keyed, unkeyed, single, h, base, nodes, kc, uc, index, cells);
      case OnUnkeyed(handle, op) =>
        s, nodes' := PerformOnUnkeyed(handle, op, encoder, keyed, unkeyed, single, h, base, nodes, kc, uc, cells);
      case OnSingleValue(handle, op) =>
        s, nodes' := PerformOnSingleValue(handle, op, encoder, keyed, unkeyed, single, h, base, nodes, kc, uc, cells);
    }
  }

  /** A call on the keyed container `keyed[handle]`, call `index` of the script being performed;
      a nested container it yields joins the containers held, over a new, unset cell. */
  method PerformOnKeyed(handle: nat, op: KeyedCall, encoder: Encoder, keyed: seq<KeyedEncodingContainer>,
                        unkeyed: seq<UnkeyedEncodingContainer>, single: seq<SingleValueEncodingContainer>,
                        ghost h: Handles, ghost base: set<Box>, ghost nodes: set<Box>, ghost kc: set<Box>,
                        ghost uc: set<Box>, ghost index: nat, ghost cells: map<nat, Box>)
    returns (s: Status<Failure>, keyed': seq<KeyedEncodingContainer>, unkeyed': seq<UnkeyedEncodingContainer>,
             ghost nodes': set<Box>, ghost kc': set<Box>, ghost uc': set<Box>, ghost cells': map<nat, Box>)
    requires Closed(nodes) && encoder.boxedValue in base && base <= nodes
    requires CallWellFormed(OnKeyed(handle, op)) && Names(h, OnKeyed(handle, op))
    requires Views(h, keyed, unkeyed, single, encoder, base, nodes, kc, uc, cells) && NestedShapes(kc, uc)
    requires forall m :: m in cells ==> m < index
    modifies keyed[handle].boxedValue
    ensures Closed(nodes') && Grows(nodes, nodes') && fresh(nodes' - nodes)
    ensures s.Pass? ==>
      Views(AfterCall(h, OnKeyed(handle, op), index), keyed', unkeyed', single, encoder, base, nodes', kc', uc', cells')
    ensures s.Pass? ==> NestedShapes(kc', uc')
    ensures s.Pass? && !WritesOwnCell(h, OnKeyed(handle, op)) ==> encoder.boxedValue.value == old(encoder.boxedValue.value)
    ensures s.Pass? && WritesOwnCell(h, OnKeyed(handle, op)) ==> encoder.boxedValue.value.Dictionary?
    ensures KeyedSafe(op) && (WritesOwnCell(h, OnKeyed(handle, op)) ==> AcceptsKeys(old(encoder.boxedValue.value)))
            ==> s.Pass?
    ensures s.Pass? && KeyedSafe(op) ==>
      LandedKeyed(op, keyed[handle].boxedValue, old(keyed[handle].boxedValue.value), nodes, nodes')
    ensures s.Pass? && (op.NestedKeyed? || op.NestedUnkeyed?) ==> Recorded(cells, cells', index, keyed[handle].boxedValue, op.key)
    ensures !(s.Pass? && (op.NestedKeyed? || op.NestedUnkeyed?)) ==> cells' == cells
    decreases op, 7
  {
    keyed', unkeyed', kc', uc', cells' := keyed, unkeyed, kc, uc, cells;
    var newKeyed, newUnkeyed;
    s, newKeyed, newUnkeyed, nodes' := KeyedStep(handle, op, encoder, keyed, unkeyed, single, h, base, nodes, kc, uc, cells);
    if s.Pass? && op.NestedKeyed? {
      keyed', kc', cells' := keyed + newKeyed, kc + {newKeyed[0].boxedValue}, cells[index := newKeyed[0].boxedValue];
      ViewsAddKeyed(h, keyed, unkeyed, single, newKeyed[0], encoder, base, nodes, nodes', kc, uc, cells, index);
      assert AfterCall(h, OnKeyed(handle, op), index) == h.(keyed := h.keyed + [Nested(index)]);
    } else if s.Pass? && op.NestedUnkeyed? {
      unkeyed', uc', cells' := unkeyed + newUnkeyed, uc + {newUnkeyed[0].boxedValue}, cells[index := newUnkeyed[0].boxedValue];
      ViewsAddUnkeyed(h, keyed, unkeyed, single, newUnkeyed[0], encoder, base, nodes, nodes', kc, uc, cells, index);
      assert AfterCall(h, OnKeyed(handle, op), index) == h.(unkeyed := h.unkeyed + [Nested(index)]);
    } else {
      ViewsGrow(h, keyed, unkeyed, single, encoder, base, nodes, nodes', kc, uc, cells);
      assert s.Pass? ==> AfterCall(h, OnKeyed(handle, op), index) == h;
    }
  }

  /** The call of `PerformOnKeyed` on its container; a nested container it yields views a new,
      unset cell. */
  method KeyedStep(handle: nat, op: KeyedCall, encoder: Encoder, keyed: seq<KeyedEncodingContainer>,
                   unkeyed: seq<UnkeyedEncodingContainer>, single: seq<SingleValueEncodingContainer>,
                   ghost h: Handles, ghost base: set<Box>, ghost nodes: set<Box>, ghost kc: set<Box>,
                   ghost uc: set<Box>, ghost cells: map<nat, Box>)
    returns (s: Status<Failure>, newKeyed: seq<KeyedEncodingContainer>, newUnkeyed: seq<UnkeyedEncodingContainer>,
             ghost nodes': set<Box>)
    requires Closed(nodes) && encoder.boxedValue in base && base <= nodes
    requires CallWellFormed(OnKeyed(handle, op)) && Names(h, OnKeyed(handle, op))
    requires Views(h, keyed, unkeyed, single, encoder, base, nodes, kc, uc, cells) && NestedShapes(kc, uc)
    modifies keyed[handle].boxedValue
    ensures Closed(nodes') && Grows(nodes, nodes') && fresh(nodes' - nodes)
    ensures s.Pass? ==> |newKeyed| == (if op.NestedKeyed? then 1 else 0)
    ensures s.Pass? ==> |newUnkeyed| == (if op.NestedUnkeyed? then 1 else 0)
    ensures s.Pass? ==> forall n :: n in newKeyed ==> n.boxedValue in nodes' - nodes && n.boxedValue.value.None?
    ensures s.Pass? ==> forall n :: n in newUnkeyed ==> n.boxedValue in nodes' - nodes && n.boxedValue.value.None?
    ensures s.Pass? && op.NestedKeyed? ==> EntryIs(keyed[handle].boxedValue, op.key, newKeyed[0].boxedValue)
    ensures s.Pass? && op.NestedUnkeyed? ==> EntryIs(keyed[handle].boxedValue, op.key, newUnkeyed[0].boxedValue)
    ensures s.Pass? ==> NestedShapes(kc, uc)
    ensures s.Pass? && !WritesOwnCell(h, OnKeyed(handle, op)) ==> encoder.boxedValue.value == old(encoder.boxedValue.value)
    ensures s.Pass? && WritesOwnCell(h, OnKeyed(handle, op)) ==> encoder.boxedValue.value.Dictionary?
    ensures KeyedSafe(op) && (WritesOwnCell(h, OnKeyed(handle, op)) ==> AcceptsKeys(old(encoder.boxedValue.value)))
            ==> s.Pass?
    ensures s.Pass? && KeyedSafe(op) ==>
      LandedKeyed(op, keyed[handle].boxedValue, old(keyed[handle].boxedValue.value), nodes, nodes')
    decreases op, 6
  {
    assert ViewOf(keyed[handle].boxedValue, h.keyed[handle], encoder, kc, cells);
    s, newKeyed, newUnkeyed, nodes' := PerformKeyed(keyed[handle], op, nodes);
    forall b | b in kc ensures AcceptsKeys(b.value) {
      assert old(AcceptsKeys(b.value));
    }
    forall b | b in uc ensures AcceptsItems(b.value) {
      assert b != keyed[handle].boxedValue && old(AcceptsItems(b.value));
    }
  }

  /** A call on the unkeyed container `unkeyed[handle]`, within the encoding of `Perform`. */
  method PerformOnUnkeyed(handle: nat, op: ValueCall, encoder: Encoder, keyed: seq<KeyedEncodingContainer>,
                          unkeyed: seq<UnkeyedEncodingContainer>, single: seq<SingleValueEncodingContainer>,
                          ghost h: Handles, ghost base: set<Box>, ghost nodes: set<Box>, ghost kc: set<Box>,
                          ghost uc: set<Box>, ghost cells: map<nat, Box>)
    returns (s: Status<Failure>, ghost nodes': set<Box>)
    requires Closed(nodes) && encoder.boxedValue in base && base <= nodes
    requires CallWellFormed(OnUnkeyed(handle, op)) && Names(h, OnUnkeyed(handle, op))
    requires Views(h, keyed, unkeyed, single, encoder, base, nodes, kc, uc, cells) && NestedShapes(kc, uc)
    modifies unkeyed[handle].boxedValue
    ensures Closed(nodes') && Grows(nodes, nodes') && fresh(nodes' - nodes)
    ensures s.Pass? ==> Views(h, keyed, unkeyed, single, encoder, base, nodes', kc, uc, cells)
    ensures s.Pass? ==> NestedShapes(kc, uc)
    ensures s.Pass? && !WritesOwnCell(h, OnUnkeyed(handle, op)) ==> encoder.boxedValue.value == old(encoder.boxedValue.value)
    ensures s.Pass? && WritesOwnCell(h, OnUnkeyed(handle, op)) ==> encoder.boxedValue.value.Array?
    ensures ValueSafe(op) && (WritesOwnCell(h, OnUnkeyed(handle, op)) ==> AcceptsItems(old(encoder.boxedValue.value)))
            ==> s.Pass?
    ensures s.Pass? && ValueSafe(op) ==>
      LandedUnkeyed(op, unkeyed[handle].boxedValue, old(unkeyed[handle].boxedValue.value), nodes, nodes')
    decreases op, 6
  {
    assert ViewOf(unkeyed[handle].boxedValue, h.unkeyed[handle], encoder, uc, cells);
    s, nodes' := PerformUnkeyed(unkeyed[handle], op, nodes);
    forall b | b in uc ensures AcceptsItems(b.value) {
      assert old(AcceptsItems(b.value));
    }
    forall b | b in kc ensures AcceptsKeys(b.value) {
      assert b != unkeyed[handle].boxedValue && old(AcceptsKeys(b.value));
    }
    ViewsGrow(h, keyed, unkeyed, single, encoder, base, nodes, nodes', kc, uc, cells);
  }

  /** A call on the single-value container `single[handle]`, within the encoding of `Perform`. */
  method PerformOnSingleValue(handle: nat, op: ValueCall, encoder: Encoder, keyed: seq<KeyedEncodingContainer>,
                              unkeyed: seq<UnkeyedEncodingContainer>, single: seq<SingleValueEncodingContainer>,
                              ghost h: Handles, ghost base: set<Box>, ghost nodes: set<Box>, ghost kc: set<Box>,
                              ghost uc: set<Box>, ghost cells: map<nat, Box>)
    returns (s: Status<Failure>, ghost nodes': set<Box>)
    requires Closed(nodes) && encoder.boxedValue in base && base <= nodes
    requires CallWellFormed(OnSingleValue(handle, op)) && Names(h, OnSingleValue(handle, op))
    requires Views(h, keyed, unkeyed, single, encoder, base, nodes, kc, uc, cells) && NestedShapes(kc, uc)
    modifies encoder.boxedValue
    ensures Closed(nodes') && Grows(nodes, nodes') && fresh(nodes' - nodes)
    ensures s.Pass? ==> Views(h, keyed, unkeyed, single, encoder, base, nodes', kc, uc, cells)
    ensures s.Pass? ==> NestedShapes(kc, uc)
    ensures s.Pass? && !ValueWrites(op) ==> encoder.boxedValue.value == old(encoder.boxedValue.value)
    ensures s.Pass? && ValueWrites(op) ==> !encoder.boxedValue.value.None?
    ensures ValueSafe(op) && (ValueWrites(op) ==> old(encoder.boxedValue.value).None?) ==> s.Pass?
    ensures s.Pass? && ValueSafe(op) ==>
      LandedSingle(op, encoder.boxedValue, old(encoder.boxedValue.value), nodes, nodes')
    decreases op, 6
  {
    assert single[handle] in single;
    s, nodes' := PerformSingleValue(single[handle], op, nodes);
    ViewsGrow(h, keyed, unkeyed, single, encoder, base, nodes, nodes', kc, uc, cells);
  }

  /** One call on a keyed container. Requesting a nested container yields it in `newKeyed` or
      `newUnkeyed`. */
  method PerformKeyed(c: KeyedEncodingContainer, op: KeyedCall, ghost nodes: set<Box>)
    returns (s: Status<Failure>, newKeyed: seq<KeyedEncodingContainer>, newUnkeyed: seq<UnkeyedEncodingContainer>,
             ghost nodes': set<Box>)
    requires Closed(nodes) && c.boxedValue in nodes
    requires op.EncodeForKey? ==> WellFormed(op.value)
    modifies c.boxedValue
    ensures Closed(nodes') && Grows(nodes, nodes') && fresh(nodes' - nodes)
    ensures s.Pass? ==> |newKeyed| == (if op.NestedKeyed? then 1 else 0)
    ensures s.Pass? ==> |newUnkeyed| == (if op.NestedUnkeyed? then 1 else 0)
    ensures forall n :: n in newKeyed ==> n.boxedValue in nodes' - nodes
    ensures forall n :: n in newUnkeyed ==> n.boxedValue in nodes' - nodes
    // the calls that trap
    ensures op.KeyedSuperEncoder? ==> s == Fail(Trapped(SuperEncoderUnsupported))
    ensures op.EncodeScalarForKey? && op.scalar.Unsigned? && op.scalar.u > Int64Max ==> s == Fail(Trapped(UnsignedOverflow))
    ensures (op.NestedKeyed? || op.NestedUnkeyed?) ==> (s.Pass? <==> AcceptsKeys(old(c.boxedValue.value)))
    ensures (op.NestedKeyed? || op.NestedUnkeyed?) && s.Fail? ==> s == Fail(Trapped(NestedInNonDictionary))
    // the stores that throw
    ensures || (op.EncodeScalarForKey? && !(op.scalar.Unsigned? && op.scalar.u > Int64Max))
            || (op.EncodeForKey? && !op.value.kind.OtherKind?)
            ==> (s.Pass? <==> AcceptsKeys(old(c.boxedValue.value))) && (s.Fail? ==> s == Fail(Thrown(MixedKeysError)))
    ensures op.EncodeForKey? && !Cancels(op.value) && !AcceptsKeys(old(c.boxedValue.value)) ==> s.Fail?
    ensures KeyedSafe(op) && (!KeyedWrites(op) || AcceptsKeys(old(c.boxedValue.value))) ==> s.Pass?
    // the new state
    ensures s.Fail? || !KeyedWrites(op) ==> c.boxedValue.value == old(c.boxedValue.value)
    ensures AcceptsKeys(old(c.boxedValue.value)) ==> AcceptsKeys(c.boxedValue.value)
    ensures s.Pass? && KeyedWrites(op) ==> StoredUnder(c.boxedValue, op.key, old(c.boxedValue.value), nodes, nodes')
    ensures s.Pass? && op.EncodeScalarForKey? ==> c.boxedValue.value.entries[op.key].value == KeyedScalarValue(op.scalar)
    ensures s.Pass? && op.EncodeForKey? && !Cancels(op.value) ==> !c.boxedValue.value.entries[op.key].value.None?
    ensures s.Pass? && op.EncodeForKey? && op.value.kind.DateKind? ==>
      c.boxedValue.value.entries[op.key].value == String(op.value.kind.iso8601DateTime)
    ensures s.Pass? && op.EncodeForKey? && op.value.kind.DataKind? ==>
      c.boxedValue.value.entries[op.key].value == String(op.value.kind.base64)
    ensures s.Pass? && op.NestedKeyed? ==>
      newKeyed[0].boxedValue == c.boxedValue.value.entries[op.key] && newKeyed[0].boxedValue.value.None?
    ensures s.Pass? && op.NestedUnkeyed? ==>
      newUnkeyed[0].boxedValue == c.boxedValue.value.entries[op.key] && newUnkeyed[0].boxedValue.value.None?
    ensures s.Pass? && KeyedSafe(op) ==> LandedKeyed(op, c.boxedValue, old(c.boxedValue.value), nodes, nodes')
    decreases op, 5
  {
    newKeyed, newUnkeyed, nodes' := [], [], nodes;
    match op {
      case EncodeScalarForKey(scalar, key) =>
        if scalar.Unsigned? && scalar.u > Int64Max {
          return Fail(Trapped(UnsignedOverflow)), [], [], nodes;
        }
        var r;
        r, nodes' := c.EncodeScalar(scalar, key, nodes);
        s := if r.Fail? then Fail(Thrown(r.error)) else Pass;
      case EncodeForKey(value, key) =>
        s, nodes' := c.Encode(value, key, nodes);
      case NestedKeyed(key) =>
        if !AcceptsKeys(c.boxedValue.value) {
          return Fail(Trapped(NestedInNonDictionary)), [], [], nodes;
        }
        var nested;
        nested, nodes' := c.NestedContainer(key, nodes);
        newKeyed := [nested];
        s := Pass;
      case NestedUnkeyed(key) =>
        if !AcceptsKeys(c.boxedValue.value) {
          return Fail(Trapped(NestedInNonDictionary)), [], [], nodes;
        }
        var nested;
        nested, nodes' := c.NestedUnkeyedContainer(key, nodes);
        newUnkeyed := [nested];
        s := Pass;
      case KeyedSuperEncoder =>
        s := Fail(Trapped(SuperEncoderUnsupported));
    }
  }

  /** One call on an unkeyed container. */
  method PerformUnkeyed(c: UnkeyedEncodingContainer, op: ValueCall, ghost nodes: set<Box>)
    returns (s: Status<Failure>, ghost nodes': set<Box>)
    requires Closed(nodes) && c.boxedValue in nodes
    requires op.EncodeValue? ==> WellFormed(op.value)
    modifies c.boxedValue
    ensures Closed(nodes') && Grows(nodes, nodes') && fresh(nodes' - nodes)
    // the calls that trap
    ensures op.NestedKeyedRequest? ==> s == Fail(Trapped(NestedKeyedUnsupported))
    ensures op.NestedUnkeyedRequest? ==> s == Fail(Trapped(NestedUnkeyedUnsupported))
    ensures op.ValueSuperEncoder? ==> s == Fail(Trapped(SuperEncoderUnsupported))
    // the appends that throw
    ensures op.EncodeScalar? || (op.EncodeValue? && !op.value.kind.OtherKind?) ==>
      (s.Pass? <==> AcceptsItems(old(c.boxedValue.value))) && (s.Fail? ==> s == Fail(Thrown(MixedArrayError)))
    ensures op.EncodeValue? && !Cancels(op.value) && !AcceptsItems(old(c.boxedValue.value)) ==> s.Fail?
    ensures ValueSafe(op) && (!ValueWrites(op) || AcceptsItems(old(c.boxedValue.value))) ==> s.Pass?
    // the new state
    ensures op.EncodeValue? && !op.value.kind.OtherKind? ==> ValueWrites(op)
    ensures s.Fail? || !ValueWrites(op) ==> c.boxedValue.value == old(c.boxedValue.value)
    ensures AcceptsItems(old(c.boxedValue.value)) ==> AcceptsItems(c.boxedValue.value)
    ensures s.Pass? && ValueWrites(op) ==>
      AppendedTo(c.boxedValue, old(c.boxedValue.value), nodes, nodes') && !LastItem(c.boxedValue).value.None?
    ensures s.Pass? && op.EncodeScalar? ==> LastItem(c.boxedValue).value == ScalarValue(op.scalar)
    ensures s.Pass? && op.EncodeValue? && op.value.kind.DateKind? ==>
      LastItem(c.boxedValue).value == String(op.value.kind.iso8601DateTime)
    ensures s.Pass? && op.EncodeValue? && op.value.kind.DataKind? ==>
      LastItem(c.boxedValue).value == String(op.value.kind.base64)
    ensures s.Pass? && ValueSafe(op) ==> LandedUnkeyed(op, c.boxedValue, old(c.boxedValue.value), nodes, nodes')
    decreases op, 5
  {
    match op {
      case EncodeScalar(scalar) =>
        var r;
        r, nodes' := c.EncodeScalar(scalar, nodes);
        s := if r.Fail? then Fail(Thrown(r.error)) else Pass;
      case EncodeValue(value) =>
        s, nodes' := c.Encode(value, nodes);
      case NestedKeyedRequest =>
        s, nodes' := Fail(Trapped(NestedKeyedUnsupported)), nodes;
      case NestedUnkeyedRequest =>
        s, nodes' := Fail(Trapped(NestedUnkeyedUnsupported)), nodes;
      case ValueSuperEncoder =>
        s, nodes' := Fail(Trapped(SuperEncoderUnsupported)), nodes;
    }
  }

  /** One call on a single-value container. */
  method PerformSingleValue(c: SingleValueEncodingContainer, op: ValueCall, ghost nodes: set<Box>)
    returns (s: Status<Failure>, ghost nodes': set<Box>)
    requires Closed(nodes) && c.boxedValue in nodes
    requires op.EncodeValue? ==> WellFormed(op.value)
    modifies c.boxedValue
    ensures Closed(nodes') && Grows(nodes, nodes') && fresh(nodes' - nodes)
    // the calls that trap
    ensures op.NestedKeyedRequest? ==> s == Fail(Trapped(NestedKeyedUnsupported))
    ensures op.NestedUnkeyedRequest? ==> s == Fail(Trapped(NestedUnkeyedUnsupported))
    ensures op.ValueSuperEncoder? ==> s == Fail(Trapped(SuperEncoderUnsupported))
    // the writes that throw
    ensures op.EncodeScalar? || (op.EncodeValue? && !op.value.kind.OtherKind?) ==>
      (s.Pass? <==> old(c.boxedValue.value).None?) && (s.Fail? ==> s == Fail(Thrown(MultipleValuesError)))
    ensures op.EncodeValue? && !Cancels(op.value) && !old(c.boxedValue.value).None? ==> s.Fail?
    ensures ValueSafe(op) && (!ValueWrites(op) || old(c.boxedValue.value).None?) ==> s.Pass?
    // the new state
    ensures s.Fail? || !ValueWrites(op) ==> c.boxedValue.value == old(c.boxedValue.value)
    ensures s.Pass? && ValueWrites(op) ==> old(c.boxedValue.value).None? && !c.boxedValue.value.None?
    ensures s.Pass? && op.EncodeScalar? ==> c.boxedValue.value == ScalarValue(op.scalar)
    ensures s.Pass? && op.EncodeValue? && op.value.kind.DateKind? ==>
      c.boxedValue.value == String(op.value.kind.iso8601DateTime)
    ensures s.Pass? && op.EncodeValue? && op.value.kind.DataKind? ==>
      c.boxedValue.value == String(op.value.kind.base64)
    ensures s.Pass? && ValueSafe(op) ==> LandedSingle(op, c.boxedValue, old(c.boxedValue.value), nodes, nodes')
    decreases op, 5
  {
    match op {
      case EncodeScalar(scalar) =>
        var r := c.EncodeScalar(scalar, nodes);
        nodes' := nodes;
        s := if r.Fail? then Fail(Thrown(r.error)) else Pass;
      case EncodeValue(value) =>
        s, nodes' := c.Encode(value, nodes);
      case NestedKeyedRequest =>
        s, nodes' := Fail(Trapped(NestedKeyedUnsupported)), nodes;
      case NestedUnkeyedRequest =>
        s, nodes' := Fail(Trapped(NestedUnkeyedUnsupported)), nodes;
      case ValueSuperEncoder =>
        s, nodes' := Fail(Trapped(SuperEncoderUnsupported)), nodes;
    }
  }

  // ---------------------------------------------------------------------------------------------
  // The cells carry the meaning of the calls
  // ---------------------------------------------------------------------------------------------

  /** `b` has every entry of `a`. */
  ghost predicate Extends<K, V>(a: map<K, V>, b: map<K, V>) {
    forall k :: k in a ==> k in b && b[k] == a[k]
  }

  /** The box of `cell`: the encoder's own `own`, or the nested cell recorded in `cells`. */
  function BoxOf(cell: Cell, own: Box, cells: map<nat, Box>): Box
    requires cell.Nested? ==> cell.m in cells
  {
    if cell.Own? then own else cells[cell.m]
  }

  /** The cell `b` is what the reference `r` stands for: a finished cell whose recorded meaning is
      `r`'s value, or the nested cell `r` names. */
  ghost predicate RefIs(b: Box, r: Ref, frozen: map<Box, Option<Json>>, cells: map<nat, Box>) {
    match r
    case Fixed(json) => b in frozen && frozen[b] == json
    case Live(m) => m in cells && cells[m] == b
  }

  /** A cell holding `v` is as the calls so far left it, `s`: unset while they wrote nothing, a
      dictionary with their keys or an array with their elements, each entry the cell its
      reference stands for, or a single value denoting what they stored. */
  ghost predicate Matches(v: JsonValue, s: Shape, frozen: map<Box, Option<Json>>, cells: map<nat, Box>) {
    match s
    case Blank => v.None?
    case Fields(fields) =>
      && v.Dictionary? && v.entries.Keys == fields.Keys
      && forall k :: k in fields ==> RefIs(v.entries[k], fields[k], frozen, cells)
    case Elements(refs) =>
      && v.Array? && |v.items| == |refs|
      && forall j :: 0 <= j < |refs| ==> RefIs(v.items[j], refs[j], frozen, cells)
    case Single(json) => !v.None? && Children(v) <= frozen.Keys && Denote(v, frozen) == json
  }

  /** What the nested cells hold. */
  ghost function Values(cells: map<nat, Box>): map<nat, JsonValue>
    reads cells.Values
  {
    map m | m in cells :: cells[m].value
  }

  /** The encoder's own cell, holding `own`, and the nested cells, holding `values`, are as the
      first `n` calls of `e` left them. */
  ghost predicate Agrees(e: Encodable, n: nat, own: JsonValue, values: map<nat, JsonValue>,
                         frozen: map<Box, Option<Json>>, cells: map<nat, Box>)
    requires n <= |e.calls|
  {
    && Matches(own, Progress(e, Own, n), frozen, cells)
    && forall m :: m in values ==> m < n && Matches(values[m], Progress(e, Nested(m), n), frozen, cells)
  }

  /** The cells of an encoding that began with the cells `base`, after its first `n` calls, with
      the encoder's own cell holding `own` and the nested cells `cells` holding `values`: the
      finished cells `frozen` were allocated since, and the nested cells are distinct, allocated
      since, never finished, and with the own cell are as the calls left them. */
  ghost predicate Tracked(e: Encodable, n: nat, own: JsonValue, values: map<nat, JsonValue>, cells: map<nat, Box>,
                          frozen: map<Box, Option<Json>>, base: set<Box>, nodes: set<Box>)
    requires n <= |e.calls|
  {
    && frozen.Keys <= nodes - base
    && (forall m :: m in cells ==> cells[m] in nodes - base && cells[m] !in frozen)
    && (forall m, m' :: m in cells && m' in cells && m != m' ==> cells[m] != cells[m'])
    && Agrees(e, n, own, values, frozen, cells)
  }

  /** `Tracked`, with the finished cells settled and the contents read from the cells themselves. */
  ghost predicate Tracks(e: Encodable, n: nat, own: Box, cells: map<nat, Box>, frozen: map<Box, Option<Json>>,
                         base: set<Box>, nodes: set<Box>)
    requires n <= |e.calls|
    reads own, cells.Values, frozen.Keys
  {
    Settled(frozen, nodes) && Tracked(e, n, own.value, Values(cells), cells, frozen, base, nodes)
  }

  /** A match survives more finished and more nested cells. */
  lemma MatchesGrow(v: JsonValue, s: Shape, frozen: map<Box, Option<Json>>, cells: map<nat, Box>,
                    frozen': map<Box, Option<Json>>, cells': map<nat, Box>)
    requires Matches(v, s, frozen, cells) && Extends(frozen, frozen') && Extends(cells, cells')
    ensures Matches(v, s, frozen', cells')
  {
    if s.Single? {
      DenoteAgree(v, frozen, frozen');
    }
  }

  /** A keyed store puts the cell `x` under `key` of a cell that matched `s`. */
  lemma StoreMatches(held: JsonValue, s: Shape, v': JsonValue, key: string, r: Ref,
                     frozen: map<Box, Option<Json>>, cells: map<nat, Box>,
                     frozen': map<Box, Option<Json>>, cells': map<nat, Box>)
    requires Matches(held, s, frozen, cells) && !s.Single? && AcceptsKeys(held)
    requires Extends(frozen, frozen') && Extends(cells, cells')
    requires v'.Dictionary? && key in v'.entries && v'.entries == EntriesOf(held)[key := v'.entries[key]]
    requires RefIs(v'.entries[key], r, frozen', cells')
    ensures Matches(v', Fields(FieldsOf(s)[key := r]), frozen', cells')
  {
    var fields := FieldsOf(s)[key := r];
    forall k | k in fields ensures RefIs(v'.entries[k], fields[k], frozen', cells') {
      if k != key {
        assert RefIs(held.entries[k], FieldsOf(s)[k], frozen, cells);
      }
    }
  }

  /** An unkeyed store appends the cell `x` to a cell that matched `s`. */
  lemma AppendMatches(held: JsonValue, s: Shape, v': JsonValue, r: Ref,
                      frozen: map<Box, Option<Json>>, cells: map<nat, Box>,
                      frozen': map<Box, Option<Json>>, cells': map<nat, Box>)
    requires Matches(held, s, frozen, cells) && !s.Single? && AcceptsItems(held)
    requires Extends(frozen, frozen') && Extends(cells, cells')
    requires v'.Array? && |v'.items| == |ItemsOf(held)| + 1 && v'.items[..|ItemsOf(held)|] == ItemsOf(held)
    requires RefIs(v'.items[|ItemsOf(held)|], r, frozen', cells')
    ensures Matches(v', Elements(RefsOf(s) + [r]), frozen', cells')
  {
    var refs := RefsOf(s) + [r];
    forall j | 0 <= j < |refs| ensures RefIs(v'.items[j], refs[j], frozen', cells') {
      if j < |RefsOf(s)| {
        assert v'.items[j] == v'.items[..|ItemsOf(held)|][j];
        assert RefIs(held.items[j], RefsOf(s)[j], frozen, cells);
      }
    }
  }

  /** A call leaves every cell it does not write into as it was. */
  lemma OthersAgree(e: Encodable, i: nat, written: Option<Cell>, own: JsonValue, own': JsonValue,
                    values: map<nat, JsonValue>, values': map<nat, JsonValue>,
                    frozen: map<Box, Option<Json>>, cells: map<nat, Box>,
                    frozen': map<Box, Option<Json>>, cells': map<nat, Box>)
    requires i < |e.calls| && Target(Opened(e.calls[..i]), e.calls[i]) == written
    requires Agrees(e, i, own, values, frozen, cells)
    requires Extends(frozen, frozen') && Extends(cells, cells')
    requires written != Some(Own) ==> own' == own
    requires forall m :: m in values && written != Some(Nested(m)) ==> m in values' && values'[m] == values[m]
    ensures written != Some(Own) ==> Matches(own', Progress(e, Own, i + 1), frozen', cells')
    ensures forall m :: m in values && written != Some(Nested(m)) ==>
      m < i && Matches(values'[m], Progress(e, Nested(m), i + 1), frozen', cells')
  {
    if written != Some(Own) {
      MatchesGrow(own, Progress(e, Own, i), frozen, cells, frozen', cells');
    }
    forall m | m in values && written != Some(Nested(m))
      ensures m < i && Matches(values'[m], Progress(e, Nested(m), i + 1), frozen', cells')
    {
      MatchesGrow(values[m], Progress(e, Nested(m), i), frozen, cells, frozen', cells');
    }
  }

  /** A request for a container keeps the cells tracking the calls: it writes into no cell. */
  lemma AdvanceRequest(e: Encodable, i: nat, own: Box, cells: map<nat, Box>, frozen: map<Box, Option<Json>>,
                       base: set<Box>, nodes: set<Box>)
    requires i < |e.calls| && !OnContainer(e.calls[i])
    requires Tracks(e, i, own, cells, frozen, base, nodes)
    ensures Tracks(e, i + 1, own, cells, frozen, base, nodes)
  {
    OthersAgree(e, i, Option.None, own.value, own.value, Values(cells), Values(cells), frozen, cells, frozen, cells);
  }



  /** The finished cells after a call: those before it and, unless it opened a nested container,
      the cells it allocated, each with what it denotes. */
  lemma FinishedNext(frozen: map<Box, Option<Json>>, nested: bool, base: set<Box>, nodes: set<Box>, nodes': set<Box>)
    returns (frozen': map<Box, Option<Json>>)
    requires Closed(nodes') && Grows(nodes, nodes') && base <= nodes && forall b :: b in nodes ==> b.birth < |nodes|
    requires Settled(frozen, nodes) && frozen.Keys <= nodes - base
    ensures Settled(frozen', nodes') && frozen'.Keys <= nodes' - base && Extends(frozen, frozen')
    ensures nested ==> frozen' == frozen
    ensures !nested ==> forall x :: x in nodes' - nodes ==> x in frozen' && frozen'[x] == Project(x, nodes')
    ensures frozen'.Keys <= frozen.Keys + (nodes' - nodes)
  {
    var made := Fresh(nodes, nodes');
    frozen' := if nested then frozen else frozen + made;
    Freeze(nodes, nodes');
    assert Settled(frozen, nodes');
    SettledUnion(frozen, made, nodes');
  }

  /** A keyed call leaves its cell as its effect says. */
  lemma WrittenKeyed(c: Call, b: Box, held: JsonValue, before: Shape, i: nat, frozen: map<Box, Option<Json>>,
                     cells: map<nat, Box>, frozen': map<Box, Option<Json>>, cells': map<nat, Box>,
                     nodes: set<Box>, nodes': set<Box>)
    requires c.OnKeyed? && Closed(nodes') && b in nodes' && LandedKeyed(c.keyed, b, held, nodes, nodes')
    requires Matches(held, before, frozen, cells) && (KeyedWrites(c.keyed) ==> !before.Single?)
    requires Extends(frozen, frozen') && Extends(cells, cells')
    requires !OpensNested(c) ==> forall x :: x in nodes' - nodes ==> x in frozen' && frozen'[x] == Project(x, nodes')
    requires OpensNested(c) ==> i in cells' && EntryIs(b, c.keyed.key, cells'[i])
    ensures Matches(b.value, Effect(before, c, i), frozen', cells')
  {
    var op := c.keyed;
    if KeyedWrites(op) {
      var r := if OpensNested(c) then Live(i) else Fixed(KeyedPayload(op));
      StoreMatches(held, before, b.value, op.key, r, frozen, cells, frozen', cells');
    } else {
      MatchesGrow(held, before, frozen, cells, frozen', cells');
    }
  }

  /** An unkeyed call leaves its cell as its effect says. */
  lemma WrittenUnkeyed(c: Call, b: Box, held: JsonValue, before: Shape, i: nat, frozen: map<Box, Option<Json>>,
                       cells: map<nat, Box>, frozen': map<Box, Option<Json>>, cells': map<nat, Box>,
                       nodes: set<Box>, nodes': set<Box>)
    requires c.OnUnkeyed? && Closed(nodes') && b in nodes' && LandedUnkeyed(c.unkeyed, b, held, nodes, nodes')
    requires Matches(held, before, frozen, cells) && (ValueWrites(c.unkeyed) ==> !before.Single?)
    requires Extends(frozen, frozen') && Extends(cells, cells')
    requires forall x :: x in nodes' - nodes ==> x in frozen' && frozen'[x] == Project(x, nodes')
    ensures Matches(b.value, Effect(before, c, i), frozen', cells')
  {
    if ValueWrites(c.unkeyed) {
      AppendMatches(held, before, b.value, Fixed(ValuePayload(c.unkeyed)), frozen, cells, frozen', cells');
    } else {
      MatchesGrow(held, before, frozen, cells, frozen', cells');
    }
  }

  /** A single-value call leaves its cell as its effect says. */
  lemma WrittenSingle(c: Call, b: Box, held: JsonValue, before: Shape, i: nat, frozen: map<Box, Option<Json>>,
                      cells: map<nat, Box>, frozen': map<Box, Option<Json>>, cells': map<nat, Box>,
                      nodes: set<Box>, nodes': set<Box>)
    requires c.OnSingleValue? && Closed(nodes') && b in nodes' && LandedSingle(c.single, b, held, nodes, nodes')
    requires Matches(held, before, frozen, cells)
    requires Extends(frozen, frozen') && Extends(cells, cells')
    requires forall x :: x in nodes' - nodes ==> x in frozen' && frozen'[x] == Project(x, nodes')
    ensures Matches(b.value, Effect(before, c, i), frozen', cells')
  {
    if ValueWrites(c.single) {
      ProjectDenote(b, nodes', frozen');
    } else {
      MatchesGrow(held, before, frozen, cells, frozen', cells');
    }
  }

  /** The cell a call of a consistent script writes into is left as the call's effect says. */
  lemma TargetAdvance(e: Encodable, i: nat, cell: Cell, b: Box, held: JsonValue,
                      frozen: map<Box, Option<Json>>, cells: map<nat, Box>,
                      frozen': map<Box, Option<Json>>, cells': map<nat, Box>, nodes: set<Box>, nodes': set<Box>)
    requires i < |e.calls| && Consistent(e) && OnContainer(e.calls[i])
    requires Target(Opened(e.calls[..i]), e.calls[i]) == Some(cell) && (cell.Nested? ==> cell.m < i)
    requires Matches(held, Progress(e, cell, i), frozen, cells)
    requires Closed(nodes') && b in nodes' && Landed(e.calls[i], b, held, nodes, nodes')
    requires Extends(frozen, frozen') && Extends(cells, cells')
    requires !OpensNested(e.calls[i]) ==>
      forall x :: x in nodes' - nodes ==> x in frozen' && frozen'[x] == Project(x, nodes')
    requires OpensNested(e.calls[i]) ==> i in cells' && EntryIs(b, e.calls[i].keyed.key, cells'[i])
    ensures Matches(b.value, Progress(e, cell, i + 1), frozen', cells')
  {
    var call, before := e.calls[i], Progress(e, cell, i);
    if cell.Own? {
      OwnNotSingle(e, i);
    } else {
      NestedNotSingle(e, cell.m, i);
    }
    match call {
      case OnKeyed(_, _) => WrittenKeyed(call, b, held, before, i, frozen, cells, frozen', cells', nodes, nodes');
      case OnUnkeyed(_, _) => WrittenUnkeyed(call, b, held, before, i, frozen, cells, frozen', cells', nodes, nodes');
      case OnSingleValue(_, _) => WrittenSingle(call, b, held, before, i, frozen, cells, frozen', cells', nodes, nodes');
    }
    assert Progress(e, cell, i + 1) == Effect(before, call, i);
  }

  /** After a call on a container, the cells agree with one call more: the written cell as the
      call's effect says, a nested cell the call opened as blank, and the others as before. */
  lemma AgreesNext(e: Encodable, i: nat, cell: Cell, own: Box, ownBefore: JsonValue,
                   values: map<nat, JsonValue>, cells: map<nat, Box>, cells': map<nat, Box>,
                   frozen: map<Box, Option<Json>>, frozen': map<Box, Option<Json>>)
    requires i < |e.calls| && Target(Opened(e.calls[..i]), e.calls[i]) == Some(cell)
    requires cell.Nested? ==> cell.m in cells
    requires values.Keys == cells.Keys && Agrees(e, i, ownBefore, values, frozen, cells)
    requires Extends(frozen, frozen') && Extends(cells, cells')
    requires cell.Nested? ==> own.value == ownBefore
    requires forall m :: m in cells && cell != Nested(m) ==> cells[m].value == values[m]
    requires Matches(BoxOf(cell, own, cells).value, Progress(e, cell, i + 1), frozen', cells')
    requires forall m :: m in cells' && m !in cells ==> m == i && cells'[m].value.None?
    ensures Agrees(e, i + 1, own.value, Values(cells'), frozen', cells')
  {
    var values' := Values(cells');
    OthersAgree(e, i, Some(cell), ownBefore, own.value, values, values', frozen, cells, frozen', cells');
    forall m | m in values'
      ensures m < i + 1 && Matches(values'[m], Progress(e, Nested(m), i + 1), frozen', cells')
    {
      if m !in cells {
        assert Progress(e, Nested(m), i + 1) == Blank;
      }
    }
  }

  /** The nested cells after a call stay distinct, allocated since the encoding began and never
      finished: a request adds one new cell and finishes none, any other call adds no nested cell. */
  lemma CellsNext(cells: map<nat, Box>, cells': map<nat, Box>, frozen: map<Box, Option<Json>>,
                  frozen': map<Box, Option<Json>>, base: set<Box>, nodes: set<Box>, nodes': set<Box>,
                  nested: bool, i: nat, made: Box)
    requires base <= nodes <= nodes'
    requires forall m :: m in cells ==> cells[m] in nodes - base && cells[m] !in frozen
    requires forall m, m' :: m in cells && m' in cells && m != m' ==> cells[m] != cells[m']
    requires frozen.Keys <= nodes && frozen'.Keys <= frozen.Keys + (nodes' - nodes)
    requires nested ==> frozen' == frozen && cells' == cells[i := made] && i !in cells && made in nodes' - nodes
    requires !nested ==> cells' == cells
    ensures forall m :: m in cells' ==> cells'[m] in nodes' - base && cells'[m] !in frozen'
    ensures forall m, m' :: m in cells' && m' in cells' && m != m' ==> cells'[m] != cells'[m']
  {
    forall m | m in cells'
      ensures cells'[m] in nodes' - base && cells'[m] !in frozen'
    {
      if !(nested && m == i) {
        assert cells'[m] == cells[m] && cells[m] !in frozen.Keys + (nodes' - nodes);
      }
    }
    forall m, m' | m in cells' && m' in cells' && m != m'
      ensures cells'[m] != cells'[m']
    {
      if nested && (m == i || m' == i) {
        assert made !in nodes;
      }
    }
  }

  /** A successful call of a consistent script on a container keeps the cells tracking the calls:
      the cell it writes into, `cell`, which held `held`, is left as the call's effect says and
      the others as they were; the cells it allocated are finished, except the nested cell a
      request made, which is recorded as `cells'[i]`. */
  lemma AdvanceCells(e: Encodable, i: nat, own: Box, cell: Cell, b: Box, held: JsonValue, ownBefore: JsonValue,
                     values: map<nat, JsonValue>, cells: map<nat, Box>, cells': map<nat, Box>,
                     frozen: map<Box, Option<Json>>, base: set<Box>, nodes: set<Box>, nodes': set<Box>)
    returns (frozen': map<Box, Option<Json>>)
    requires i < |e.calls| && Consistent(e) && OnContainer(e.calls[i])
    requires Target(Opened(e.calls[..i]), e.calls[i]) == Some(cell) && (cell.Nested? ==> cell.m in cells)
    requires values.Keys == cells.Keys && Tracked(e, i, ownBefore, values, cells, frozen, base, nodes)
    requires b == BoxOf(cell, own, cells) && held == (if cell.Own? then ownBefore else values[cell.m])
    requires Closed(nodes') && Grows(nodes, nodes') && base <= nodes && own in base
    requires forall x :: x in nodes ==> x.birth < |nodes|
    requires Settled(frozen, nodes)
    requires cell.Nested? ==> own.value == ownBefore
    requires forall m :: m in cells && cell != Nested(m) ==> cells[m].value == values[m]
    requires Landed(e.calls[i], b, held, nodes, nodes')
    requires OpensNested(e.calls[i]) ==> Recorded(cells, cells', i, b, e.calls[i].keyed.key)
    requires !OpensNested(e.calls[i]) ==> cells' == cells
    ensures Tracks(e, i + 1, own, cells', frozen', base, nodes')
  {
    var call := e.calls[i];
    frozen' := FinishedNext(frozen, OpensNested(call), base, nodes, nodes');
    var made := if OpensNested(call) then b.value.entries[call.keyed.key] else b;
    CellsNext(cells, cells', frozen, frozen', base, nodes, nodes', OpensNested(call), i, made);
    assert Extends(cells, cells');
    assert Matches(held, Progress(e, cell, i), frozen, cells);
    TargetAdvance(e, i, cell, b, held, frozen, cells, frozen', cells', nodes, nodes');
    AgreesNext(e, i, cell, own, ownBefore, values, cells, cells', frozen, frozen');
  }

  /** What the cells `nodes` hold, taken before a call. */
  ghost function Snapshot(nodes: set<Box>): map<Box, JsonValue>
    reads nodes
  {
    map x | x in nodes :: x.value
  }

  /** `Settled`, with each cell's contents read from `heap`. */
  ghost predicate SettledAt(meaning: map<Box, Option<Json>>, nodes: set<Box>, heap: map<Box, JsonValue>) {
    forall b :: b in meaning ==>
      b in nodes && b in heap && Children(heap[b]) <= meaning.Keys && meaning[b] == Denote(heap[b], meaning)
  }

  /** What the nested cells hold in `heap`. */
  ghost function ValuesAt(cells: map<nat, Box>, heap: map<Box, JsonValue>): map<nat, JsonValue>
    requires forall m :: m in cells ==> cells[m] in heap
  {
    map m | m in cells :: heap[cells[m]]
  }

  /** A snapshot of the cells keeps all that `Tracks` says about them. */
  lemma TakeSnapshot(e: Encodable, i: nat, own: Box, cells: map<nat, Box>, frozen: map<Box, Option<Json>>,
                     base: set<Box>, nodes: set<Box>)
    requires i <= |e.calls| && own in nodes && Tracks(e, i, own, cells, frozen, base, nodes)
    ensures forall m :: m in cells ==> cells[m] in nodes
    ensures SettledAt(frozen, nodes, Snapshot(nodes))
    ensures Tracked(e, i, Snapshot(nodes)[own], ValuesAt(cells, Snapshot(nodes)), cells, frozen, base, nodes)
  {
    assert ValuesAt(cells, Snapshot(nodes)) == Values(cells);
  }

  /** A successful call of a consistent script on a container keeps the cells tracking the calls,
      given what they held before it, `heap`: the call wrote only into its cell `b`. */
  lemma AdvanceStore(e: Encodable, i: nat, own: Box, cell: Cell, b: Box, heap: map<Box, JsonValue>,
                     cells: map<nat, Box>, cells': map<nat, Box>, frozen: map<Box, Option<Json>>,
                     base: set<Box>, nodes: set<Box>, nodes': set<Box>)
    returns (frozen': map<Box, Option<Json>>)
    requires i < |e.calls| && Consistent(e) && OnContainer(e.calls[i])
    requires Target(Opened(e.calls[..i]), e.calls[i]) == Some(cell) && (cell.Nested? ==> cell.m in cells)
    requires nodes <= heap.Keys && own in base && base <= nodes
    requires forall m :: m in cells ==> cells[m] in nodes
    requires SettledAt(frozen, nodes, heap) && Tracked(e, i, heap[own], ValuesAt(cells, heap), cells, frozen, base, nodes)
    requires b == BoxOf(cell, own, cells)
    requires Closed(nodes') && Grows(nodes, nodes') && forall x :: x in nodes ==> x.birth < |nodes|
    requires forall x :: x in nodes && x != b ==> x.value == heap[x]
    requires Landed(e.calls[i], b, heap[b], nodes, nodes')
    requires OpensNested(e.calls[i]) ==> Recorded(cells, cells', i, b, e.calls[i].keyed.key)
    requires !OpensNested(e.calls[i]) ==> cells' == cells
    ensures Tracks(e, i + 1, own, cells', frozen', base, nodes')
  {
    var values := ValuesAt(cells, heap);
    assert b !in frozen;
    assert Settled(frozen, nodes);
    frozen' := AdvanceCells(e, i, own, cell, b, heap[b], heap[own], values, cells, cells', frozen, base, nodes, nodes');
  }

  /** Once every call of `e` is done, a tracked cell projects to what the calls denote for it. */
  lemma {:induction false} LiveProject(e: Encodable, c: Cell, own: Box, cells: map<nat, Box>,
                                       frozen: map<Box, Option<Json>>, nodes: set<Box>)
    requires Closed(nodes) && Settled(frozen, nodes) && own in nodes
    requires forall m :: m in cells ==> cells[m] in nodes
    requires Agrees(e, |e.calls|, own.value, Values(cells), frozen, cells)
    requires c.Nested? ==> c.m in cells
    ensures Project(BoxOf(c, own, cells), nodes) == Contents(e, c)
    decreases |e.calls| - Start(c), 2
  {
    var b, s := BoxOf(c, own, cells), Progress(e, c, |e.calls|);
    ProgressRefs(e, c, |e.calls|);
    assert Matches(b.value, s, frozen, cells);
    ShapeProject(e, b, s, Start(c), own, cells, frozen, nodes);
  }

  /** A cell as the calls left it, `s`, projects to what `s` denotes once they are all done. */
  lemma {:induction false} ShapeProject(e: Encodable, b: Box, s: Shape, lo: nat, own: Box, cells: map<nat, Box>,
                                        frozen: map<Box, Option<Json>>, nodes: set<Box>)
    requires Closed(nodes) && Settled(frozen, nodes) && own in nodes
    requires forall m :: m in cells ==> cells[m] in nodes
    requires Agrees(e, |e.calls|, own.value, Values(cells), frozen, cells)
    requires lo <= |e.calls| && b in nodes && Matches(b.value, s, frozen, cells) && RefsBetween(s, lo, |e.calls|)
    ensures Project(b, nodes) == Finish(e, s, lo)
    decreases |e.calls| - lo, 1
  {
    match s
    case Blank =>
    case Fields(fields) =>
      assert FieldsOf(s) == fields;
      FieldsProject(e, b, fields, lo, own, cells, frozen, nodes);
    case Elements(refs) =>
      var items := b.value.items;
      assert forall x :: x in items ==> x in Children(b.value);
      assert RefsOf(s) == refs;
      ItemsResolve(e, items, refs, lo, b.birth, own, cells, frozen, nodes);
    case Single(json) =>
      forall x | x in Children(b.value) ensures x in frozen && frozen[x] == Project(x, nodes) {
        SettledProject(x, nodes, frozen);
      }
      ProjectDenote(b, nodes, frozen);
  }

  /** A dictionary cell whose entries stand for `fields` projects to the object they resolve to. */
  lemma {:induction false} FieldsProject(e: Encodable, b: Box, fields: map<string, Ref>, lo: nat, own: Box,
                                         cells: map<nat, Box>, frozen: map<Box, Option<Json>>, nodes: set<Box>)
    requires Closed(nodes) && Settled(frozen, nodes) && own in nodes
    requires forall m :: m in cells ==> cells[m] in nodes
    requires Agrees(e, |e.calls|, own.value, Values(cells), frozen, cells)
    requires lo <= |e.calls| && b in nodes && Matches(b.value, Fields(fields), frozen, cells)
    requires forall k :: k in fields && fields[k].Live? ==> lo <= fields[k].m < |e.calls|
    ensures Project(b, nodes) == Finish(e, Fields(fields), lo)
    decreases |e.calls| - lo, 0, 1
  {
    var entries := b.value.entries;
    forall k | k in fields ensures Project(entries[k], nodes) == Resolve(e, fields[k], lo) {
      RefProject(e, entries[k], fields[k], lo, own, cells, frozen, nodes);
    }
    var projected := ProjectEntries(entries, nodes, b.birth);
    var resolved := map k | k in fields && Resolve(e, fields[k], lo).Some? :: Resolve(e, fields[k], lo).value;
    assert projected.Keys == resolved.Keys;
    assert projected == resolved;
  }

  /** The cell a reference stands for projects to what the reference resolves to. */
  lemma {:induction false} RefProject(e: Encodable, x: Box, r: Ref, lo: nat, own: Box, cells: map<nat, Box>,
                                      frozen: map<Box, Option<Json>>, nodes: set<Box>)
    requires Closed(nodes) && Settled(frozen, nodes) && own in nodes
    requires forall m :: m in cells ==> cells[m] in nodes
    requires Agrees(e, |e.calls|, own.value, Values(cells), frozen, cells)
    requires lo <= |e.calls| && RefIs(x, r, frozen, cells) && (r.Live? ==> lo <= r.m < |e.calls|)
    ensures x in nodes && Project(x, nodes) == Resolve(e, r, lo)
    decreases |e.calls| - lo, 0, 0
  {
    match r
    case Fixed(_) => SettledProject(x, nodes, frozen);
    case Live(m) => LiveProject(e, Nested(m), own, cells, frozen, nodes);
  }

  /** Once every call of `e` is done, the tracked own cell projects to what `e` encodes to. */
  lemma TrackedProject(e: Encodable, own: Box, cells: map<nat, Box>, frozen: map<Box, Option<Json>>,
                       base: set<Box>, nodes: set<Box>)
    requires Closed(nodes) && own in nodes && Tracks(e, |e.calls|, own, cells, frozen, base, nodes)
    ensures Project(own, nodes) == Encoded(e)
  {
    LiveProject(e, Own, own, cells, frozen, nodes);
  }

  /** The cells of an array stand for its references and project to what they resolve to. */
  lemma {:induction false} ItemsResolve(e: Encodable, items: seq<Box>, refs: seq<Ref>, lo: nat, parent: nat,
                                        own: Box, cells: map<nat, Box>, frozen: map<Box, Option<Json>>,
                                        nodes: set<Box>)
    requires Closed(nodes) && Settled(frozen, nodes) && own in nodes
    requires forall m :: m in cells ==> cells[m] in nodes
    requires Agrees(e, |e.calls|, own.value, Values(cells), frozen, cells)
    requires lo <= |e.calls| && |items| == |refs|
    requires forall x :: x in items ==> x in nodes && parent < x.birth
    requires forall j :: 0 <= j < |refs| ==> RefIs(items[j], refs[j], frozen, cells)
    requires forall j :: 0 <= j < |refs| && refs[j].Live? ==> lo <= refs[j].m < |e.calls|
    ensures ProjectItems(items, nodes, parent) == ResolveAll(e, refs, lo)
    decreases |e.calls| - lo, 0, |items| + 1
  {
    if items != [] {
      RefProject(e, items[0], refs[0], lo, own, cells, frozen, nodes);
      ItemsResolve(e, items[1..], refs[1..], lo, parent, own, cells, frozen, nodes);
    }
  }

  /** `BoxedValue.build(from:userInfo:)`. A `Date` becomes a string cell holding its ISO-8601
      form and `Data` one holding its base64 form, without running their own encoding, so neither
      is ever cancelled and neither fails. Any other value is encoded into a fresh encoder, whose
      cell is returned unless it is still unset, that is unless none of the value's calls writes
      into it: then the result is `nil` and the value is cancelled. */
  method Build(e: Encodable, ghost nodes: set<Box>)
    returns (r: Result<Option<Box>, Failure>, ghost nodes': set<Box>)
    requires Closed(nodes) && WellFormed(e)
    ensures Closed(nodes') && Grows(nodes, nodes') && fresh(nodes' - nodes)
    ensures ConsistentValue(e) ==> r.Success?
    ensures r.Success? ==> (r.value.None? <==> Cancels(e))
    ensures r.Success? && r.value.Some? ==> r.value.value in nodes' - nodes && !r.value.value.value.None?
    ensures e.kind.DateKind? ==> r.Success? && r.value.Some? && r.value.value.value == String(e.kind.iso8601DateTime)
    ensures e.kind.DataKind? ==> r.Success? && r.value.Some? && r.value.value.value == String(e.kind.base64)
    ensures ConsistentValue(e) && r.Success? && r.value.Some? ==> Project(r.value.value, nodes') == Built(e)
    ensures ConsistentValue(e) && r.Success? && r.value.None? ==> Built(e).None?
    decreases e, 5
  {
    match e.kind
    case DateKind(iso8601DateTime) =>
      var boxed := new Box(String(iso8601DateTime), |nodes|);
      nodes' := nodes + {boxed};
      AddLeaf(nodes, boxed);
      r := Success(Some(boxed));
    case DataKind(base64) =>
      var boxed := new Box(String(base64), |nodes|);
      nodes' := nodes + {boxed};
      AddLeaf(nodes, boxed);
      r := Success(Some(boxed));
    case OtherKind =>
      var encoder := new Encoder(nodes);
      AddLeaf(nodes, encoder.boxedValue);
      ghost var withRoot := nodes + {encoder.boxedValue};
      var s;
      s, nodes' := EncodeTo(e, encoder, withRoot);
      GrowsTransitive(nodes, withRoot, nodes');
      if s.Fail? {
        r := Failure(s.error);
      } else if encoder.boxedValue.value.None? {
        r := Success(Option.None);
      } else {
        r := Success(Some(encoder.boxedValue));
      }
  }

  // ---------------------------------------------------------------------------------------------
  // Containers
  // ---------------------------------------------------------------------------------------------

  /** `JSONWithCancelableNodesKeyedEncodingContainer`: every call stores into the container's
      cell with `set(_:forKey:)`. */
  class KeyedEncodingContainer {
    const boxedValue: Box

    constructor (boxedValue: Box)
      ensures this.boxedValue == boxedValue
    {
      this.boxedValue := boxedValue;
    }

    /** `encodeNil(forKey:)` and the `encode(_:forKey:)` overloads for scalars. */
    method EncodeScalar(scalar: Scalar, key: string, ghost nodes: set<Box>)
      returns (s: Status<EncodingError>, ghost nodes': set<Box>)
      requires Closed(nodes) && boxedValue in nodes
      requires scalar.Unsigned? ==> scalar.u <= Int64Max
      modifies boxedValue
      ensures Closed(nodes') && Grows(nodes, nodes') && fresh(nodes' - nodes)
      ensures s.Pass? <==> AcceptsKeys(old(boxedValue.value))
      ensures s.Pass? ==>
        StoredUnder(boxedValue, key, old(boxedValue.value), nodes, nodes')
        && boxedValue.value.entries[key].value == KeyedScalarValue(scalar)
        && Project(boxedValue.value.entries[key], nodes') == Some(ScalarJson(scalar))
      ensures s.Fail? ==> boxedValue.value == old(boxedValue.value) && s.error == MixedKeysError
    {
      s, nodes' := boxedValue.SetValueForKey(KeyedScalarValue(scalar), key, nodes);
    }

    /** The generic `encode(_:forKey:)`: builds the value and, unless it is cancelled, stores it
        under the key. A cancelled value leaves the cell exactly as it was: no key is added. A
        `Date` or `Data` value is never cancelled and fails only when the cell holds something
        other than a dictionary. */
    method Encode(value: Encodable, key: string, ghost nodes: set<Box>)
      returns (s: Status<Failure>, ghost nodes': set<Box>)
      requires Closed(nodes) && boxedValue in nodes && WellFormed(value)
      modifies boxedValue
      ensures Closed(nodes') && Grows(nodes, nodes') && fresh(nodes' - nodes)
      ensures s.Fail? || Cancels(value) ==> boxedValue.value == old(boxedValue.value)
      ensures s.Pass? && !Cancels(value) ==>
        StoredUnder(boxedValue, key, old(boxedValue.value), nodes, nodes')
        && !boxedValue.value.entries[key].value.None?
      ensures s.Pass? && value.kind.DateKind? ==> boxedValue.value.entries[key].value == String(value.kind.iso8601DateTime)
      ensures s.Pass? && value.kind.DataKind? ==> boxedValue.value.entries[key].value == String(value.kind.base64)
      ensures !value.kind.OtherKind? ==> (s.Pass? <==> AcceptsKeys(old(boxedValue.value)))
      ensures !value.kind.OtherKind? && s.Fail? ==> s == Fail(Thrown(MixedKeysError))
      ensures !Cancels(value) && !AcceptsKeys(old(boxedValue.value)) ==> s.Fail?
      ensures ConsistentValue(value) && (Cancels(value) || AcceptsKeys(old(boxedValue.value))) ==> s.Pass?
      ensures s.Pass? && !Cancels(value) && ConsistentValue(value) ==>
        StoredUnder(boxedValue, key, old(boxedValue.value), nodes, nodes')
        && Project(boxedValue.value.entries[key], nodes') == Built(value)
      decreases value, 6
    {
      var built;
      built, nodes' := Build(value, nodes);
      if built.Failure? {
        return Fail(built.error), nodes';
      }
      if built.value.None? {
        return Pass, nodes';
      }
      SubsetCardinality(nodes, nodes');
      ghost var meaning := Fresh(nodes, nodes');
      Freeze(nodes, nodes');
      var r := boxedValue.SetForKey(built.value.value, key, nodes');
      SettledProject(built.value.value, nodes', meaning);
      s := if r.Fail? then Fail(Thrown(r.error)) else Pass;
    }

    /** `nestedContainer(keyedBy:forKey:)`: stores a fresh unset cell under the key and returns a
        keyed container over that same cell, so later writes through it show up in this cell's
        entry. The source's `fatalError` when the store throws is excluded by the precondition. */
    method NestedContainer(key: string, ghost nodes: set<Box>)
      returns (nested: KeyedEncodingContainer, ghost nodes': set<Box>)
      requires Closed(nodes) && boxedValue in nodes
      requires AcceptsKeys(boxedValue.value)
      modifies boxedValue
      ensures Closed(nodes') && Grows(nodes, nodes') && fresh(nodes' - nodes)
      ensures fresh(nested) && nested.boxedValue in nodes' - nodes && nested.boxedValue.value.None?
      ensures nodes' == nodes + {nested.boxedValue}
      ensures boxedValue.value == Dictionary(EntriesOf(old(boxedValue.value))[key := nested.boxedValue])
    {
      var boxed;
      boxed, nodes' := NestedCell(key, nodes);
      nested := new KeyedEncodingContainer(boxed);
    }

    /** The cell both nested-container requests share: a fresh unset cell stored under `key`. */
    method NestedCell(key: string, ghost nodes: set<Box>) returns (boxed: Box, ghost nodes': set<Box>)
      requires Closed(nodes) && boxedValue in nodes
      requires AcceptsKeys(boxedValue.value)
      modifies boxedValue
      ensures Closed(nodes') && Grows(nodes, nodes') && fresh(nodes' - nodes)
      ensures fresh(boxed) && boxed in nodes' - nodes && boxed.value.None? && nodes' == nodes + {boxed}
      ensures boxedValue.value == Dictionary(EntriesOf(old(boxedValue.value))[key := boxed])
    {
      boxed := new Box(JsonValue.None, |nodes|);
      nodes' := nodes + {boxed};
      AddLeaf(nodes, boxed);
      var s := boxedValue.SetForKey(boxed, key, nodes');
    }

    /** `nestedUnkeyedContainer(forKey:)`: as `NestedContainer`, with an unkeyed view. */
    method NestedUnkeyedContainer(key: string, ghost nodes: set<Box>)
      returns (nested: UnkeyedEncodingContainer, ghost nodes': set<Box>)
      requires Closed(nodes) && boxedValue in nodes
      requires AcceptsKeys(boxedValue.value)
      modifies boxedValue
      ensures Closed(nodes') && Grows(nodes, nodes') && fresh(nodes' - nodes)
      ensures fresh(nested) && nested.boxedValue in nodes' - nodes && nested.boxedValue.value.None?
      ensures nodes' == nodes + {nested.boxedValue}
      ensures boxedValue.value == Dictionary(EntriesOf(old(boxedValue.value))[key := nested.boxedValue])
    {
      var boxed;
      boxed, nodes' := NestedCell(key, nodes);
      nested := new UnkeyedEncodingContainer(boxed);
    }
  }

  /** `JSONWithCancelableNodesUnkeyedEncodingContainer`: every call appends to the container's
      cell. */
  class UnkeyedEncodingContainer {
    const boxedValue: Box

    constructor (boxedValue: Box)
      ensures this.boxedValue == boxedValue
    {
      this.boxedValue := boxedValue;
    }

    /** `count`: the number of elements in the container's cell. */
    function Count(): nat
      reads boxedValue
    {
      |ItemsOf(boxedValue.value)|
    }

    /** `encodeNil()` and the `encode(_:)` overloads for scalars. */
    method EncodeScalar(scalar: Scalar, ghost nodes: set<Box>)
      returns (s: Status<EncodingError>, ghost nodes': set<Box>)
      requires Closed(nodes) && boxedValue in nodes
      modifies boxedValue
      ensures Closed(nodes') && Grows(nodes, nodes') && fresh(nodes' - nodes)
      ensures s.Pass? <==> AcceptsItems(old(boxedValue.value))
      ensures Count() == old(Count()) + (if s.Pass? then 1 else 0)
      ensures s.Pass? ==>
        AppendedTo(boxedValue, old(boxedValue.value), nodes, nodes')
        && LastItem(boxedValue).value == ScalarValue(scalar)
        && Project(LastItem(boxedValue), nodes') == Some(ScalarJson(scalar))
      ensures s.Fail? ==> boxedValue.value == old(boxedValue.value) && s.error == MixedArrayError
    {
      s, nodes' := boxedValue.AppendValue(ScalarValue(scalar), nodes);
    }

    /** The generic `encode(_:)`: builds the value and, unless it is cancelled, appends it. A
        cancelled value leaves the cell exactly as it was: `count` counts only the values that
        were appended. A `Date` or `Data` value is never cancelled and fails only when the cell
        holds something other than an array. */
    method Encode(value: Encodable, ghost nodes: set<Box>)
      returns (s: Status<Failure>, ghost nodes': set<Box>)
      requires Closed(nodes) && boxedValue in nodes && WellFormed(value)
      modifies boxedValue
      ensures Closed(nodes') && Grows(nodes, nodes') && fresh(nodes' - nodes)
      ensures s.Fail? || Cancels(value) ==> boxedValue.value == old(boxedValue.value)
      ensures Count() == old(Count()) + (if s.Pass? && !Cancels(value) then 1 else 0)
      ensures s.Pass? && !Cancels(value) ==>
        AppendedTo(boxedValue, old(boxedValue.value), nodes, nodes')
        && !LastItem(boxedValue).value.None?
      ensures s.Pass? && value.kind.DateKind? ==> LastItem(boxedValue).value == String(value.kind.iso8601DateTime)
      ensures s.Pass? && value.kind.DataKind? ==> LastItem(boxedValue).value == String(value.kind.base64)
      ensures !value.kind.OtherKind? ==> (s.Pass? <==> AcceptsItems(old(boxedValue.value)))
      ensures !value.kind.OtherKind? && s.Fail? ==> s == Fail(Thrown(MixedArrayError))
      ensures !Cancels(value) && !AcceptsItems(old(boxedValue.value)) ==> s.Fail?
      ensures ConsistentValue(value) && (Cancels(value) || AcceptsItems(old(boxedValue.value))) ==> s.Pass?
      ensures s.Pass? && !Cancels(value) && ConsistentValue(value) ==>
        AppendedTo(boxedValue, old(boxedValue.value), nodes, nodes')
        && Project(LastItem(boxedValue), nodes') == Built(value)
      decreases value, 6
    {
      var built;
      built, nodes' := Build(value, nodes);
      assert boxedValue.value == old(boxedValue.value);
      if built.Failure? {
        return Fail(built.error), nodes';
      }
      if built.value.None? {
        return Pass, nodes';
      }
      SubsetCardinality(nodes, nodes');
      ghost var meaning := Fresh(nodes, nodes');
      Freeze(nodes, nodes');
      var r := boxedValue.Append(built.value.value, nodes');
      SettledProject(built.value.value, nodes', meaning);
      s := if r.Fail? then Fail(Thrown(r.error)) else Pass;
    }
  }

  /** `JSONWithCancelableNodesSingleValueEncodingContainer`: every call is a one-shot
      `set(singleValue:)` on the container's cell. */
  class SingleValueEncodingContainer {
    const boxedValue: Box

    constructor (boxedValue: Box)
      ensures this.boxedValue == boxedValue
    {
      this.boxedValue := boxedValue;
    }

    /** `encodeNil()` and the `encode(_:)` overloads for scalars. */
    method EncodeScalar(scalar: Scalar, ghost nodes: set<Box>) returns (s: Status<EncodingError>)
      requires Closed(nodes) && boxedValue in nodes
      modifies boxedValue
      ensures Closed(nodes)
      ensures s.Pass? <==> old(boxedValue.value).None?
      ensures s.Pass? ==> boxedValue.value == ScalarValue(scalar) && Project(boxedValue, nodes) == Some(ScalarJson(scalar))
      ensures s.Fail? ==> boxedValue.value == old(boxedValue.value) && s.error == MultipleValuesError
    {
      s := boxedValue.SetSingleValue(ScalarValue(scalar), nodes);
    }

    /** The generic `encode(_:)`: builds the value and, unless it is cancelled, copies the built
        cell's value into this cell with `set(singleValue:)`. A cancelled value leaves the cell
        exactly as it was. A `Date` or `Data` value is never cancelled and fails only when the
        cell is already set. */
    method Encode(value: Encodable, ghost nodes: set<Box>)
      returns (s: Status<Failure>, ghost nodes': set<Box>)
      requires Closed(nodes) && boxedValue in nodes && WellFormed(value)
      modifies boxedValue
      ensures Closed(nodes') && Grows(nodes, nodes') && fresh(nodes' - nodes)
      ensures s.Fail? || Cancels(value) ==> boxedValue.value == old(boxedValue.value)
      ensures s.Pass? && !Cancels(value) ==> old(boxedValue.value).None? && !boxedValue.value.None?
      ensures s.Pass? && value.kind.DateKind? ==> boxedValue.value == String(value.kind.iso8601DateTime)
      ensures s.Pass? && value.kind.DataKind? ==> boxedValue.value == String(value.kind.base64)
      ensures !value.kind.OtherKind? ==> (s.Pass? <==> old(boxedValue.value).None?)
      ensures !value.kind.OtherKind? && s.Fail? ==> s == Fail(Thrown(MultipleValuesError))
      ensures !Cancels(value) && !old(boxedValue.value).None? ==> s.Fail?
      ensures ConsistentValue(value) && (Cancels(value) || old(boxedValue.value).None?) ==> s.Pass?
      ensures s.Pass? && !Cancels(value) && ConsistentValue(value) ==>
        Children(boxedValue.value) <= nodes' - nodes && Project(boxedValue, nodes') == Built(value)
      decreases value, 6
    {
      var built;
      built, nodes' := Build(value, nodes);
      if built.Failure? {
        return Fail(built.error), nodes';
      }
      if built.value.None? {
        return Pass, nodes';
      }
      SubsetCardinality(nodes, nodes');
      var root := built.value.value;
      ghost var meaning := Fresh(nodes, nodes');
      Freeze(nodes, nodes');
      var r := boxedValue.SetSingleValue(root.value, nodes');
      if r.Pass? {
        forall c | c in Children(boxedValue.value) ensures c in meaning && meaning[c] == Project(c, nodes') {
          SettledProject(c, nodes', meaning);
        }
        ProjectDenote(boxedValue, nodes', meaning);
        SettledProject(root, nodes', meaning);
      }
      s := if r.Fail? then Fail(Thrown(r.error)) else Pass;
    }
  }
}

/** The intermediate tree of the cancelable-node JSON encoder: `JSONValue`, the mutable cell
    `BoxedValue` that holds one, the three writes that move a cell through its states, and the
    serializer `jsonString`.

    Cells are shared by reference: a container handed out for a nested value writes into a cell
    that its parent already holds. The tree stays acyclic because a cell only ever receives
    children allocated after it. The model makes this visible with a ghost `birth` number per
    cell and a ghost set `nodes` of the cells of one encoding pass, threaded through every
    operation that allocates: a child is always younger than its parent (`Closed`). */
module JsonNodes {
  import opened Outcomes
  import opened JsonText

  type Int64 = i: int | -0x8000_0000_0000_0000 <= i < 0x8000_0000_0000_0000
  type UInt64 = u: int | 0 <= u < 0x1_0000_0000_0000_0000

  const Int64Max: int := 0x7FFF_FFFF_FFFF_FFFF

  /** What `ErrorGenerating.error(_:because:)` is given; the error value it builds is not modelled. */
  datatype EncodingError = EncodingError(operation: string, reason: string)

  const MixedKeysError := EncodingError("encoding", "a mixture of key/value pairs and just values is not supported")
  const MixedArrayError := EncodingError("encoding", "a mixture of a value array and just values is not supported")
  const MultipleValuesError := EncodingError("encoding", "multiple single values is not supported")

  /** `JSONValue`: `None` is a cell nobody has written yet. */
  datatype JsonValue =
    | None
    | Null
    | Array(items: seq<Box>)
    | Dictionary(entries: map<string, Box>)
    | String(s: string)
    | Integer(i: Int64)
    | UnsignedInteger(u: UInt64)
    | Double(d: FloatText)
    | Float(f: FloatText)
    | Bool(b: bool)

  /** What the Swift runtime decides and the source leaves to it. `order` is the order in which
      `compactMap` visits a `Dictionary`'s keys, given per key set, since Swift does not specify
      it. One order per key set is a simplification: Swift does not promise that two dictionaries
      with the same keys are visited alike, but no property proved here depends on the order.
      `characters` splits a `String` into the `Character`s (grapheme clusters) that
      `for character in string` visits, by Unicode's segmentation rules. */
  datatype Platform = Platform(order: set<string> -> seq<string>, characters: string -> seq<Character>)

  /** `keys` listed exactly once each. */
  ghost predicate Enumerates(order: seq<string>, keys: set<string>) {
    && |order| == |keys|
    && (forall k :: k in order <==> k in keys)
    && (forall i, j :: 0 <= i < j < |order| ==> order[i] != order[j])
  }

  /** An iteration order visits every key of every dictionary exactly once, and the characters of
      a string are the string. */
  ghost predicate IsPlatform(platform: Platform) {
    && (forall keys: set<string> :: Enumerates(platform.order(keys), keys))
    && (forall s: string :: Flatten(platform.characters(s)) == s)
  }

  /** A value that holds no cells: everything but arrays and dictionaries. */
  predicate IsLeaf(v: JsonValue) {
    !v.Array? && !v.Dictionary?
  }

  /** The cells a value refers to directly. */
  ghost function Children(v: JsonValue): set<Box> {
    match v
    case Array(items) => set c | c in items
    case Dictionary(entries) => entries.Values
    case _ => {}
  }

  /** The cells of one encoding pass are closed under `Children`, and every child is younger than
      its parent; births are below `|nodes|`, so a fresh cell may be born `|nodes|`. */
  ghost predicate Closed(nodes: set<Box>)
    reads nodes
  {
    forall b :: b in nodes ==>
      && b.birth < |nodes|
      && Children(b.value) <= nodes
      && forall c :: c in Children(b.value) ==> b.birth < c.birth
  }

  /** `after` extends the cells of a pass `before` with cells born later than all of them. */
  ghost predicate Grows(before: set<Box>, after: set<Box>) {
    && before <= after
    && forall b :: b in after && b !in before ==> |before| <= b.birth
  }

  lemma SubsetCardinality(a: set<Box>, b: set<Box>)
    requires a <= b
    ensures |a| <= |b|
  {
    assert b == a + (b - a);
  }

  lemma GrowsTransitive(a: set<Box>, b: set<Box>, c: set<Box>)
    requires Grows(a, b) && Grows(b, c)
    ensures Grows(a, c)
  {
    SubsetCardinality(a, b);
  }

  /** A new cell holding no children joins the cells of a pass as its youngest. */
  lemma AddLeaf(nodes: set<Box>, b: Box)
    requires Closed(nodes) && b !in nodes && b.birth == |nodes| && IsLeaf(b.value)
    ensures Closed(nodes + {b}) && Grows(nodes, nodes + {b})
  {
  }

  /** `BoxedValue`. */
  class Box {
    var value: JsonValue
    ghost const birth: nat

    /** `init(_:)`; `birth` is its place in the allocation order of the pass. */
    constructor (value: JsonValue, ghost birth: nat)
      ensures this.value == value && this.birth == birth
    {
      this.value := value;
      this.birth := birth;
    }

    /** `set(_: BoxedValue, forKey:)`: an unset cell becomes a one-entry dictionary, a dictionary
        gains or overwrites the one key, anything else throws and is left as it was. */
    method SetForKey(child: Box, key: string, ghost nodes: set<Box>) returns (s: Status<EncodingError>)
      requires Closed(nodes) && this in nodes && child in nodes && birth < child.birth
      modifies this
      ensures Closed(nodes)
      ensures s.Pass? <==> old(value).None? || old(value).Dictionary?
      ensures old(value).None? ==> value == Dictionary(map[key := child])
      ensures old(value).Dictionary? ==> value == Dictionary(old(value).entries[key := child])
      ensures s.Fail? ==> value == old(value) && s.error == MixedKeysError
    {
      match value
      case None =>
        value := Dictionary(map[key := child]);
        s := Pass;
      case Dictionary(existing) =>
        var updated := existing[key := child];
        value := Dictionary(updated);
        s := Pass;
      case _ =>
        s := Fail(MixedKeysError);
    }

    /** `set(_: JSONValue, forKey:)`: wraps the value in a fresh cell and stores that. */
    method SetValueForKey(v: JsonValue, key: string, ghost nodes: set<Box>)
      returns (s: Status<EncodingError>, ghost nodes': set<Box>)
      requires Closed(nodes) && this in nodes && IsLeaf(v)
      modifies this
      ensures Closed(nodes') && Grows(nodes, nodes') && fresh(nodes' - nodes)
      ensures s.Pass? <==> old(value).None? || old(value).Dictionary?
      ensures s.Pass? ==> value.Dictionary? && key in value.entries && value.entries[key].value == v
      ensures s.Pass? ==> value.entries[key] in nodes' - nodes
      ensures old(value).None? ==> value.entries.Keys == {key}
      ensures old(value).Dictionary? ==> value.entries == old(value).entries[key := value.entries[key]]
      ensures s.Fail? ==> value == old(value) && s.error == MixedKeysError
    {
      var boxed := new Box(v, |nodes|);
      nodes' := nodes + {boxed};
      AddLeaf(nodes, boxed);
      s := SetForKey(boxed, key, nodes');
    }

    /** `append(_: BoxedValue)`: an unset cell becomes a one-element array, an array grows by the
        one element at its end, anything else throws and is left as it was. */
    method Append(child: Box, ghost nodes: set<Box>) returns (s: Status<EncodingError>)
      requires Closed(nodes) && this in nodes && child in nodes && birth < child.birth
      modifies this
      ensures Closed(nodes)
      ensures s.Pass? <==> old(value).None? || old(value).Array?
      ensures old(value).None? ==> value == Array([child])
      ensures old(value).Array? ==> value == Array(old(value).items + [child])
      ensures s.Fail? ==> value == old(value) && s.error == MixedArrayError
    {
      match value
      case None =>
        value := Array([child]);
        s := Pass;
      case Array(existing) =>
        var extended := existing + [child];
        value := Array(extended);
        s := Pass;
      case _ =>
        s := Fail(MixedArrayError);
    }

    /** `append(_: JSONValue)`: wraps the value in a fresh cell and appends that. */
    method AppendValue(v: JsonValue, ghost nodes: set<Box>)
      returns (s: Status<EncodingError>, ghost nodes': set<Box>)
      requires Closed(nodes) && this in nodes && IsLeaf(v)
      modifies this
      ensures Closed(nodes') && Grows(nodes, nodes') && fresh(nodes' - nodes)
      ensures s.Pass? <==> old(value).None? || old(value).Array?
      ensures s.Pass? ==> value.Array? && |value.items| > 0 && value.items[|value.items| - 1].value == v
      ensures s.Pass? ==> value.items[|value.items| - 1] in nodes' - nodes
      ensures old(value).None? ==> |value.items| == 1
      ensures old(value).Array? ==> value.items[..|value.items| - 1] == old(value).items
      ensures s.Fail? ==> value == old(value) && s.error == MixedArrayError
    {
      var boxed := new Box(v, |nodes|);
      nodes' := nodes + {boxed};
      AddLeaf(nodes, boxed);
      s := Append(boxed, nodes');
    }

    /** `set(singleValue:)`: a one-shot write. It succeeds exactly when the cell is unset; a second
        write throws, whatever its kind, and leaves the cell as it was. */
    method SetSingleValue(v: JsonValue, ghost nodes: set<Box>) returns (s: Status<EncodingError>)
      requires Closed(nodes) && this in nodes
      requires forall c :: c in Children(v) ==> c in nodes && birth < c.birth
      modifies this
      ensures Closed(nodes)
      ensures s.Pass? <==> old(value).None?
      ensures s.Pass? ==> value == v
      ensures s.Fail? ==> value == old(value) && s.error == MultipleValuesError
    {
      match value
      case None =>
        value := v;
        s := Pass;
      case _ =>
        s := Fail(MultipleValuesError);
    }

    /** `jsonString`: the text of the cell, `None` only for an unset cell. Children that render
        `None` are left out of arrays and dictionaries; dictionary entries come in the platform's
        order, and strings and keys are escaped by the platform's characters. */
    function JsonString(ghost nodes: set<Box>, platform: Platform): (r: Option<string>)
      requires this in nodes && Closed(nodes) && IsPlatform(platform)
      reads nodes
      ensures r.None? <==> value.None?
      ensures r.Some? ==> |r.value| > 0 && OpensValue(r.value[0])
      decreases |nodes| - birth, 1
    {
      match value
      case None => Option.None
      case Bool(b) => Some(if b then "true" else "false")
      case Double(d) => Some(d)
      case Float(f) => Some(f)
      case Integer(i) => Some(DecimalText(i))
      case UnsignedInteger(u) => Some(DecimalText(u))
      case String(s) => Some(Quoted(platform, s))
      case Null => Some("null")
      case Array(items) =>
        Some("[" + Join(ItemStrings(items, nodes, platform, birth), ",") + "]")
      case Dictionary(entries) =>
        Some("{" + Join(EntryStrings(platform.order(entries.Keys), entries, nodes, platform, birth), ",") + "}")
    }
  }

  /** The `compactMap` over an array's elements: the texts of the elements that render. */
  function ItemStrings(items: seq<Box>, ghost nodes: set<Box>, platform: Platform, ghost parent: nat)
    : (r: seq<string>)
    requires Closed(nodes) && IsPlatform(platform)
    requires forall c :: c in items ==> c in nodes && parent < c.birth
    reads nodes
    ensures |r| <= |items|
    ensures forall p :: p in r ==> |p| > 0 && OpensValue(p[0])
    decreases |nodes| - parent, 0, |items|
  {
    if items == [] then []
    else
      var head := items[0].JsonString(nodes, platform);
      (if head.Some? then [head.value] else []) + ItemStrings(items[1..], nodes, platform, parent)
  }

  /** A string as the serializer writes it: its characters escaped, in quotes. */
  function Quoted(platform: Platform, s: string): string {
    "\"" + EscapeCharacters(platform.characters(s)) + "\""
  }

  /** The text of one dictionary entry: the escaped key in quotes, a colon, the value's text. */
  function Member(platform: Platform, key: string, text: string): string {
    Quoted(platform, key) + ":" + text
  }

  /** The `compactMap` over a dictionary's entries, visited in the order of `keys`: `"key":text` for each
      entry whose value renders. */
  function EntryStrings(keys: seq<string>, entries: map<string, Box>, ghost nodes: set<Box>, platform: Platform,
                        ghost parent: nat)
    : (r: seq<string>)
    requires Closed(nodes) && IsPlatform(platform)
    requires forall k :: k in keys ==> k in entries
    requires forall k :: k in entries ==> entries[k] in nodes && parent < entries[k].birth
    reads nodes
    ensures |r| <= |keys|
    ensures forall p :: p in r ==> |p| > 0 && p[0] == '"'
    decreases |nodes| - parent, 0, |keys|
  {
    if keys == [] then []
    else
      var rendered := entries[keys[0]].JsonString(nodes, platform);
      (if rendered.Some? then [Member(platform, keys[0], rendered.value)] else [])
        + EntryStrings(keys[1..], entries, nodes, platform, parent)
  }

}

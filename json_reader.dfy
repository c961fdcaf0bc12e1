/** What the text `jsonString` writes means. `Project` gives the JSON value a tree of cells
    denotes, independent of any dictionary iteration order: unset cells, and the keys and elements
    that hold them, are absent. `ParseValue` is a JSON reader, as strict as section 6 and 7 of
    RFC 8259 about numbers and strings, for text without whitespace and without `\u` escapes.
    The round trip `JsonStringReadsBack` says the rendering of a tree is JSON text that reads back
    as its projection, for every platform, provided its strings and keys are `ReadableString`s
    and its floating-point numbers are finite. The lemmas after it show why each condition is
    needed: the escaper writes U+0012 as `\f` and a form feed raw, copies a `"` that shares a
    grapheme cluster with a combining mark, and Swift prints non-finite numbers as `nan`,
    `-nan`, `snan`, `inf` and `-inf`. */
module JsonReading {
  import opened Outcomes
  import opened JsonText
  import opened JsonNodes

  datatype Json =
    | JNull
    | JBool(b: bool)
    | JNumber(text: string)
    | JString(s: string)
    | JArray(items: seq<Json>)
    | JObject(fields: map<string, Json>)

  // ---------------------------------------------------------------------------------------------
  // What a tree of cells denotes
  // ---------------------------------------------------------------------------------------------

  /** The JSON value of a cell, `None` for an unset one. Numbers are denoted by their decimal or
      floating-point text. */
  ghost function Project(b: Box, nodes: set<Box>): (r: Option<Json>)
    requires b in nodes && Closed(nodes)
    reads nodes
    ensures r.None? <==> b.value.None?
    decreases |nodes| - b.birth, 1
  {
    match b.value
    case None => Option.None
    case Null => Some(JNull)
    case Bool(x) => Some(JBool(x))
    case Integer(i) => Some(JNumber(DecimalText(i)))
    case UnsignedInteger(u) => Some(JNumber(DecimalText(u)))
    case Double(d) => Some(JNumber(d))
    case Float(f) => Some(JNumber(f))
    case String(s) => Some(JString(s))
    case Array(items) => Some(JArray(ProjectItems(items, nodes, b.birth)))
    case Dictionary(entries) => Some(JObject(ProjectEntries(entries, nodes, b.birth)))
  }

  /** The values of the elements that are set, in order. */
  ghost function ProjectItems(items: seq<Box>, nodes: set<Box>, parent: nat): (r: seq<Json>)
    requires Closed(nodes)
    requires forall c :: c in items ==> c in nodes && parent < c.birth
    reads nodes
    ensures r == [] <==> forall c :: c in items ==> c.value.None?
    decreases |nodes| - parent, 0, |items|
  {
    if items == [] then []
    else
      var head := Project(items[0], nodes);
      (if head.Some? then [head.value] else []) + ProjectItems(items[1..], nodes, parent)
  }

  /** The values of the entries that are set: a key whose cell was never written is absent. */
  ghost function ProjectEntries(entries: map<string, Box>, nodes: set<Box>, parent: nat): (r: map<string, Json>)
    requires Closed(nodes)
    requires forall k :: k in entries ==> entries[k] in nodes && parent < entries[k].birth
    reads nodes
    ensures forall k :: k in r <==> k in entries && !entries[k].value.None?
    decreases |nodes| - parent, 0
  {
    map k | k in entries && Project(entries[k], nodes).Some? :: Project(entries[k], nodes).value
  }

  /** The JSON value of a cell holding `v`, given what the cells it refers to denote. */
  ghost function Denote(v: JsonValue, meaning: map<Box, Option<Json>>): (r: Option<Json>)
    requires Children(v) <= meaning.Keys
    ensures r.None? <==> v.None?
  {
    match v
    case None => Option.None
    case Null => Some(JNull)
    case Bool(x) => Some(JBool(x))
    case Integer(i) => Some(JNumber(DecimalText(i)))
    case UnsignedInteger(u) => Some(JNumber(DecimalText(u)))
    case Double(d) => Some(JNumber(d))
    case Float(f) => Some(JNumber(f))
    case String(s) => Some(JString(s))
    case Array(items) => Some(JArray(Present(items, meaning)))
    case Dictionary(entries) =>
      Some(JObject(map k | k in entries && meaning[entries[k]].Some? :: meaning[entries[k]].value))
  }

  /** The meanings of the elements that denote something, in order. */
  ghost function Present(items: seq<Box>, meaning: map<Box, Option<Json>>): seq<Json>
    requires forall c :: c in items ==> c in meaning
  {
    if items == [] then []
    else (if meaning[items[0]].Some? then [meaning[items[0]].value] else []) + Present(items[1..], meaning)
  }

  lemma {:induction false} ProjectItemsPresent(items: seq<Box>, nodes: set<Box>, parent: nat,
                                               meaning: map<Box, Option<Json>>)
    requires Closed(nodes)
    requires forall c :: c in items ==> c in nodes && parent < c.birth
    requires forall c :: c in items ==> c in meaning && meaning[c] == Project(c, nodes)
    ensures ProjectItems(items, nodes, parent) == Present(items, meaning)
    decreases |items|
  {
    if items != [] {
      ProjectItemsPresent(items[1..], nodes, parent, meaning);
    }
  }

  /** A cell denotes what its value does, given what its children denote. */
  lemma ProjectDenote(b: Box, nodes: set<Box>, meaning: map<Box, Option<Json>>)
    requires b in nodes && Closed(nodes)
    requires forall c :: c in Children(b.value) ==> c in meaning && meaning[c] == Project(c, nodes)
    ensures Project(b, nodes) == Denote(b.value, meaning)
  {
    match b.value
    case Array(items) =>
      ProjectItemsPresent(items, nodes, b.birth, meaning);
    case Dictionary(entries) =>
      forall k | k in entries ensures meaning[entries[k]] == Project(entries[k], nodes) {
        assert entries[k] in Children(b.value);
      }
      assert ProjectEntries(entries, nodes, b.birth)
          == map k | k in entries && meaning[entries[k]].Some? :: meaning[entries[k]].value;
    case _ =>
  }

  /** Two meanings that agree on the children of `v` give it the same meaning. */
  lemma DenoteAgree(v: JsonValue, meaning: map<Box, Option<Json>>, meaning': map<Box, Option<Json>>)
    requires Children(v) <= meaning.Keys && Children(v) <= meaning'.Keys
    requires forall c :: c in Children(v) ==> meaning[c] == meaning'[c]
    ensures Denote(v, meaning) == Denote(v, meaning')
  {
    match v
    case Array(items) =>
      PresentAgree(items, meaning, meaning');
    case Dictionary(entries) =>
      forall k | k in entries ensures meaning[entries[k]] == meaning'[entries[k]] {
        assert entries[k] in Children(v);
      }
      assert (map k | k in entries && meaning[entries[k]].Some? :: meaning[entries[k]].value)
          == (map k | k in entries && meaning'[entries[k]].Some? :: meaning'[entries[k]].value);
    case _ =>
  }

  lemma {:induction false} PresentAgree(items: seq<Box>, meaning: map<Box, Option<Json>>, meaning': map<Box, Option<Json>>)
    requires forall c :: c in items ==> c in meaning && c in meaning' && meaning[c] == meaning'[c]
    ensures Present(items, meaning) == Present(items, meaning')
    decreases |items|
  {
    if items != [] {
      PresentAgree(items[1..], meaning, meaning');
    }
  }

  /** Cells whose meaning is recorded in `meaning`: each is in `nodes`, refers only to recorded
      cells, and means what its value denotes given theirs. */
  ghost predicate Settled(meaning: map<Box, Option<Json>>, nodes: set<Box>)
    reads meaning.Keys
  {
    forall b :: b in meaning ==> b in nodes && Children(b.value) <= meaning.Keys && meaning[b] == Denote(b.value, meaning)
  }

  /** A settled cell's recorded meaning is what it denotes. */
  lemma SettledProject(b: Box, nodes: set<Box>, meaning: map<Box, Option<Json>>)
    requires Closed(nodes) && Settled(meaning, nodes) && b in meaning
    ensures Project(b, nodes) == meaning[b]
    decreases |nodes| - b.birth
  {
    forall c | c in Children(b.value) ensures meaning[c] == Project(c, nodes) {
      SettledProject(c, nodes, meaning);
    }
    ProjectDenote(b, nodes, meaning);
  }

  /** The cells allocated since `nodes`, with what they denote. */
  ghost function Fresh(nodes: set<Box>, nodes': set<Box>): map<Box, Option<Json>>
    requires Closed(nodes')
    reads nodes'
  {
    map c | c in nodes' - nodes :: Project(c, nodes')
  }

  /** The cells allocated since `nodes` are settled, since they refer only to each other. */
  lemma Freeze(nodes: set<Box>, nodes': set<Box>)
    requires Closed(nodes') && Grows(nodes, nodes') && forall b :: b in nodes ==> b.birth < |nodes|
    ensures Settled(Fresh(nodes, nodes'), nodes')
  {
    var meaning := Fresh(nodes, nodes');
    forall b | b in meaning
      ensures Children(b.value) <= meaning.Keys && meaning[b] == Denote(b.value, meaning)
    {
      forall c | c in Children(b.value) ensures c in meaning {
        assert c in nodes' && b.birth < c.birth;
      }
      ProjectDenote(b, nodes', meaning);
    }
  }

  /** Two settled sets of cells apart from each other are settled together. */
  lemma SettledUnion(meaning: map<Box, Option<Json>>, meaning': map<Box, Option<Json>>, nodes: set<Box>)
    requires Settled(meaning, nodes) && Settled(meaning', nodes) && meaning.Keys !! meaning'.Keys
    ensures Settled(meaning + meaning', nodes)
  {
    var both := meaning + meaning';
    forall b | b in both
      ensures b in nodes && Children(b.value) <= both.Keys && both[b] == Denote(b.value, both)
    {
      if b in meaning' {
        DenoteAgree(b.value, meaning', both);
      } else {
        DenoteAgree(b.value, meaning, both);
      }
    }
  }

  // ---------------------------------------------------------------------------------------------
  // The reader
  // ---------------------------------------------------------------------------------------------

  /** The character a backslash escape stands for. */
  function Unescape(c: char): Option<char> {
    if c == 'b' then Some(Backspace)
    else if c == 'f' then Some(FormFeed)
    else if c == 'n' then Some('\n')
    else if c == 'r' then Some('\r')
    else if c == 't' then Some('\t')
    else if c == '"' then Some('"')
    else if c == '\\' then Some('\\')
    else if c == '/' then Some('/')
    else Option.None
  }

  predicate StartsWith(s: string, prefix: string) {
    |prefix| <= |s| && s[..|prefix|] == prefix
  }

  /** The length of the longest prefix made of number characters. */
  function NumberLength(s: string): (n: nat)
    ensures n <= |s|
    ensures forall i :: 0 <= i < n ==> IsNumberChar(s[i])
    ensures n < |s| ==> !IsNumberChar(s[n])
  {
    if s == [] || !IsNumberChar(s[0]) then 0 else 1 + NumberLength(s[1..])
  }

  /** The body of a string after its opening quote: its characters and what follows the closing
      quote. A control character must be escaped. */
  function ParseString(s: string): (r: Option<(string, string)>)
    ensures r.Some? ==> |r.value.1| < |s|
  {
    if s == [] then Option.None
    else if s[0] == '"' then Some(([], s[1..]))
    else if s[0] == '\\' then
      if |s| < 2 then Option.None
      else match (Unescape(s[1]), ParseString(s[2..]))
        case (Some(c), Some((t, rest))) => Some(([c] + t, rest))
        case _ => Option.None
    else if s[0] < ' ' then Option.None
    else match ParseString(s[1..])
      case Some((t, rest)) => Some(([s[0]] + t, rest))
      case None => Option.None
  }

  /** One value at the start of `s`, and the text after it. */
  function ParseValue(s: string): (r: Option<(Json, string)>)
    ensures r.Some? ==> |r.value.1| < |s|
    decreases |s|, 0
  {
    if s == [] then Option.None
    else if s[0] == '"' then
      match ParseString(s[1..])
      case Some((t, rest)) => Some((JString(t), rest))
      case None => Option.None
    else if s[0] == '[' then ParseArray(s[1..])
    else if s[0] == '{' then ParseObject(s[1..])
    else if StartsWith(s, "null") then Some((JNull, s[4..]))
    else if StartsWith(s, "true") then Some((JBool(true), s[4..]))
    else if StartsWith(s, "false") then Some((JBool(false), s[5..]))
    else if IsNumberChar(s[0]) then
      var n := NumberLength(s);
      if IsJsonNumber(s[..n]) then Some((JNumber(s[..n]), s[n..])) else Option.None
    else Option.None
  }

  /** An array after its `[`. */
  function ParseArray(s: string): (r: Option<(Json, string)>)
    ensures r.Some? ==> |r.value.1| < |s|
    decreases |s|, 2
  {
    if |s| > 0 && s[0] == ']' then Some((JArray([]), s[1..])) else ParseElements(s, [])
  }

  /** The elements of an array, the ones before `s` being `done`. */
  function ParseElements(s: string, done: seq<Json>): (r: Option<(Json, string)>)
    ensures r.Some? ==> |r.value.1| < |s|
    decreases |s|, 1
  {
    match ParseValue(s)
    case None => Option.None
    case Some((v, rest)) =>
      if |rest| > 0 && rest[0] == ',' then ParseElements(rest[1..], done + [v])
      else if |rest| > 0 && rest[0] == ']' then Some((JArray(done + [v]), rest[1..]))
      else Option.None
  }

  /** An object after its `{`. */
  function ParseObject(s: string): (r: Option<(Json, string)>)
    ensures r.Some? ==> |r.value.1| < |s|
    decreases |s|, 2
  {
    if |s| > 0 && s[0] == '}' then Some((JObject(map[]), s[1..])) else ParseMembers(s, map[])
  }

  /** The members of an object, the ones before `s` being `done`; a repeated key keeps its last
      value. */
  function ParseMembers(s: string, done: map<string, Json>): (r: Option<(Json, string)>)
    ensures r.Some? ==> |r.value.1| < |s|
    decreases |s|, 1
  {
    if s == [] || s[0] != '"' then Option.None
    else match ParseString(s[1..])
      case None => Option.None
      case Some((key, afterKey)) =>
        if afterKey == [] || afterKey[0] != ':' then Option.None
        else match ParseValue(afterKey[1..])
          case None => Option.None
          case Some((v, rest)) =>
            if |rest| > 0 && rest[0] == ',' then ParseMembers(rest[1..], done[key := v])
            else if |rest| > 0 && rest[0] == '}' then Some((JObject(done[key := v]), rest[1..]))
            else Option.None
  }

  /** A whole text holding one value. */
  function Read(text: string): Option<Json> {
    match ParseValue(text)
    case Some((v, rest)) => if rest == [] then Some(v) else Option.None
    case None => Option.None
  }

  // ---------------------------------------------------------------------------------------------
  // Round trip
  // ---------------------------------------------------------------------------------------------

  /** What may follow a value inside the serializer's output. */
  predicate Delimits(rest: string) {
    rest == [] || rest[0] == ',' || rest[0] == ']' || rest[0] == '}'
  }

  /** A scalar the serializer writes so that it reads back: anything but a control character, or
      one of the four control characters the escaper writes correctly. */
  predicate ReadsBack(c: char) {
    ' ' <= c || c == Backspace || c == '\n' || c == '\r' || c == '\t'
  }

  /** A string whose quoted, escaped text reads back as itself: all its scalars read back, and no
      escaped scalar shares a grapheme cluster with another scalar, CR LF aside. */
  predicate ReadableString(platform: Platform, s: string) {
    && (forall i :: 0 <= i < |s| ==> ReadsBack(s[i]))
    && (forall i :: 0 <= i < |platform.characters(s)| ==> EscapesAsScalars(platform.characters(s)[i]))
  }

  /** The serializer writes the cell's own part as JSON: its strings and keys are readable, and its
      floating-point numbers are finite. */
  predicate ReadableValue(platform: Platform, v: JsonValue) {
    && (v.String? ==> ReadableString(platform, v.s))
    && (v.Dictionary? ==> forall k :: k in v.entries ==> ReadableString(platform, k))
    && (v.Double? ==> IsJsonNumber(v.d))
    && (v.Float? ==> IsJsonNumber(v.f))
  }

  ghost predicate Readable(nodes: set<Box>, platform: Platform)
    reads nodes
  {
    forall c :: c in nodes ==> ReadableValue(platform, c.value)
  }

  /** The reader recovers every string of scalars that read back from its per-scalar escaping. */
  lemma {:induction false} StringRoundTrip(s: string, rest: string)
    requires forall i :: 0 <= i < |s| ==> ReadsBack(s[i])
    ensures ParseString(Escaped(s) + "\"" + rest) == Some((s, rest))
    decreases |s|
  {
    var text := Escaped(s) + "\"" + rest;
    if s == [] {
      assert text == "\"" + rest;
    } else {
      var c := s[0];
      var tailText := Escaped(s[1..]) + "\"" + rest;
      assert text == EscapeChar(c) + tailText;
      assert forall i :: 0 <= i < |s[1..]| ==> s[1..][i] == s[i + 1];
      StringRoundTrip(s[1..], rest);
      assert ReadsBack(s[0]);
      if IsEscaped(c) {
        assert text[2..] == tailText;
      } else {
        assert text[1..] == tailText;
      }
      assert [c] + s[1..] == s;
    }
  }

  /** When the platform's characters keep escaped scalars apart, the escaper over characters
      writes the per-scalar escaping. */
  lemma QuotedAsScalars(platform: Platform, s: string)
    requires IsPlatform(platform)
    requires forall i :: 0 <= i < |platform.characters(s)| ==> EscapesAsScalars(platform.characters(s)[i])
    ensures Quoted(platform, s) == "\"" + Escaped(s) + "\""
  {
    EscapeCharactersAsScalars(platform.characters(s));
    assert Flatten(platform.characters(s)) == s;
  }

  /** The escaper writes U+0012 as `\f`, which reads back as a form feed U+000C, a different
      string. A form feed itself is copied raw, and a raw control character is not JSON. */
  lemma DeviceControlTwoReadsAsFormFeed()
    ensures Escaped([DeviceControlTwo]) == "\\f" && ParseString("\\f" + "\"") == Some(([FormFeed], ""))
    ensures [DeviceControlTwo] != [FormFeed]
    ensures Escaped([FormFeed]) == [FormFeed] && ParseString([FormFeed] + "\"") == Option.None
  {
    assert Escaped([DeviceControlTwo]) == "\\f";
    assert Escaped([FormFeed]) == [FormFeed];
    assert ("\\f" + "\"")[2..] == "\"";
  }

  /** A `"` followed by a combining acute accent U+0301 is one grapheme cluster, which matches no
      case of the escaper and is copied: the quote then closes the string early, and the text is
      not JSON. */
  lemma CombinedQuoteEndsString()
    ensures EscapeCharacters([['"', '\U{301}']]) == ['"', '\U{301}']
    ensures Escaped(['"', '\U{301}']) == ['\\', '"', '\U{301}']
    ensures Read("\"" + EscapeCharacters([['"', '\U{301}']]) + "\"") == Option.None
  {
    var ch: Character := ['"', '\U{301}'];
    assert [ch][..0] == [];
    assert EscapeCharacters([ch]) == ch;
    assert Escaped(ch[1..]) == ch[1..];
    var text := "\"" + ch + "\"";
    assert text[1..] == ['"', '\U{301}', '"'];
    assert ParseString(text[1..]) == Some(([], ['\U{301}', '"']));
  }

  /** Swift prints a NaN as `nan`, `-nan` or `snan`, which the reader rejects. */
  lemma NaNUnreadable()
    ensures Read("nan") == Option.None && Read("-nan") == Option.None && Read("snan") == Option.None
  {
    assert NumberLength("nan") == 3 && "nan"[..3] == "nan";
    assert NumberLength("-nan") == 4 && "-nan"[..4] == "-nan";
    assert !IsJsonNumber("-nan") by {
      assert "-nan"[1..] == "nan";
    }
    assert NumberLength("snan") == 4 && "snan"[..4] == "snan";
  }

  /** Swift prints the infinities as `inf` and `-inf`, which the reader rejects. */
  lemma InfinityUnreadable()
    ensures Read("inf") == Option.None && Read("-inf") == Option.None
  {
    assert NumberLength("inf") == 3 && "inf"[..3] == "inf";
    assert NumberLength("-inf") == 4 && "-inf"[..4] == "-inf";
    assert !IsJsonNumber("-inf") by {
      assert "-inf"[1..] == "inf";
    }
  }

  /** A JSON number is read in full, and as nothing but a number. */
  lemma NumberRoundTrip(t: string, rest: string)
    requires IsNumberToken(t) && IsJsonNumber(t) && Delimits(rest)
    ensures ParseValue(t + rest) == Some((JNumber(t), rest))
  {
    var s := t + rest;
    assert s[0] == t[0];
    NotWord(t, rest, "null", 1);
    NotWord(t, rest, "true", 0);
    NotWord(t, rest, "false", 2);
    NumberLengthOfToken(t, rest);
    assert s[..|t|] == t && s[|t|..] == rest;
  }

  /** The number characters at the front of a number token followed by a delimiter are the
      token's. */
  lemma NumberLengthOfToken(t: string, rest: string)
    requires IsNumberToken(t) && Delimits(rest)
    ensures NumberLength(t + rest) == |t|
  {
    var s := t + rest;
    assert forall i :: 0 <= i < |t| ==> s[i] == t[i];
    assert |rest| > 0 ==> s[|t|] == rest[0];
  }

  /** A number token followed by a delimiter does not start with a literal that has a letter
      which is not a number character. */
  lemma NotWord(t: string, rest: string, word: string, j: nat)
    requires IsNumberToken(t) && Delimits(rest)
    requires j < |word| && !IsNumberChar(word[j])
    requires forall i :: 0 <= i < |word| ==> word[i] != ',' && word[i] != ']' && word[i] != '}'
    ensures !StartsWith(t + rest, word)
  {
    var s := t + rest;
    assert forall i :: 0 <= i < |t| ==> s[i] == t[i];
    assert |rest| > 0 ==> s[|t|] == rest[0];
    assert StartsWith(s, word) ==> forall i :: 0 <= i < |word| ==> s[i] == s[..|word|][i] == word[i];
  }

  /** The literals read back as themselves. */
  lemma LiteralRoundTrip(rest: string)
    requires Delimits(rest)
    ensures ParseValue("null" + rest) == Some((JNull, rest))
    ensures ParseValue("true" + rest) == Some((JBool(true), rest))
    ensures ParseValue("false" + rest) == Some((JBool(false), rest))
  {
    assert ("null" + rest)[..4] == "null" && ("null" + rest)[4..] == rest;
    assert ("true" + rest)[..4] == "true" && ("true" + rest)[4..] == rest;
    assert ("true" + rest)[..4] != "null";
    assert ("false" + rest)[..5] == "false" && ("false" + rest)[5..] == rest;
    assert ("false" + rest)[..4][1] == 'a';
  }

  /** A readable string, quoted and escaped, reads back as the string. */
  lemma QuotedRoundTrip(platform: Platform, str: string, rest: string)
    requires IsPlatform(platform) && ReadableString(platform, str)
    ensures ParseValue(Quoted(platform, str) + rest) == Some((JString(str), rest))
  {
    QuotedAsScalars(platform, str);
    var s := "\"" + Escaped(str) + "\"" + rest;
    assert s[1..] == Escaped(str) + "\"" + rest;
    StringRoundTrip(str, rest);
  }

  /** The text and the projection of a cell that holds no other cells. */
  lemma LeafText(b: Box, nodes: set<Box>, platform: Platform)
    requires b in nodes && Closed(nodes) && IsPlatform(platform) && IsLeaf(b.value) && !b.value.None?
    ensures b.value.Null? ==> b.JsonString(nodes, platform) == Some("null") && Project(b, nodes) == Some(JNull)
    ensures b.value.Bool? ==> b.JsonString(nodes, platform) == Some(if b.value.b then "true" else "false")
                              && Project(b, nodes) == Some(JBool(b.value.b))
    ensures b.value.String? ==> b.JsonString(nodes, platform) == Some(Quoted(platform, b.value.s))
                                && Project(b, nodes) == Some(JString(b.value.s))
    ensures !b.value.Null? && !b.value.Bool? && !b.value.String? ==>
      && b.JsonString(nodes, platform).Some?
      && IsNumberToken(b.JsonString(nodes, platform).value)
      && Project(b, nodes) == Some(JNumber(b.JsonString(nodes, platform).value))
    ensures b.value.Integer? ==> b.JsonString(nodes, platform) == Some(DecimalText(b.value.i))
    ensures b.value.UnsignedInteger? ==> b.JsonString(nodes, platform) == Some(DecimalText(b.value.u))
    ensures b.value.Double? ==> b.JsonString(nodes, platform) == Some(b.value.d)
    ensures b.value.Float? ==> b.JsonString(nodes, platform) == Some(b.value.f)
  {
    if b.value.Integer? {
      DecimalIsNumberToken(b.value.i);
    } else if b.value.UnsignedInteger? {
      DecimalIsNumberToken(b.value.u);
    }
  }

  /** A cell that holds no other cells reads back as its projection. */
  lemma LeafRoundTrip(b: Box, nodes: set<Box>, platform: Platform, rest: string)
    requires b in nodes && Closed(nodes) && IsPlatform(platform) && Readable(nodes, platform)
    requires IsLeaf(b.value) && !b.value.None? && Delimits(rest)
    ensures ParseValue(b.JsonString(nodes, platform).value + rest) == Some((Project(b, nodes).value, rest))
  {
    LeafText(b, nodes, platform);
    assert ReadableValue(platform, b.value);
    if b.value.Null? || b.value.Bool? {
      LiteralRoundTrip(rest);
    } else if b.value.String? {
      QuotedRoundTrip(platform, b.value.s, rest);
    } else {
      if b.value.Integer? {
        DecimalIsJsonNumber(b.value.i);
      } else if b.value.UnsignedInteger? {
        DecimalIsJsonNumber(b.value.u);
      }
      NumberRoundTrip(b.JsonString(nodes, platform).value, rest);
    }
  }

  /** The rendering of a set cell, followed by a delimiter, reads back as the cell's projection
      and leaves the delimiter. */
  lemma {:induction false} RoundTrip(b: Box, nodes: set<Box>, platform: Platform, rest: string)
    requires b in nodes && Closed(nodes) && IsPlatform(platform) && Readable(nodes, platform)
    requires !b.value.None? && Delimits(rest)
    ensures ParseValue(b.JsonString(nodes, platform).value + rest) == Some((Project(b, nodes).value, rest))
    decreases |nodes| - b.birth, 2
  {
    if b.value.Array? {
      ArrayText(b, nodes, platform);
      ArrayRoundTrip(b.value.items, nodes, platform, b.birth, rest);
    } else if b.value.Dictionary? {
      ObjectText(b, nodes, platform);
      ObjectRoundTrip(b.value.entries, nodes, platform, b.birth, rest);
    } else {
      LeafRoundTrip(b, nodes, platform, rest);
    }
  }

  /** An array's text reads back as the projection of its elements. */
  lemma {:induction false} ArrayRoundTrip(items: seq<Box>, nodes: set<Box>, platform: Platform, parent: nat, rest: string)
    requires Closed(nodes) && IsPlatform(platform) && Readable(nodes, platform) && Delimits(rest)
    requires forall c :: c in items ==> c in nodes && parent < c.birth
    ensures ParseValue("[" + Join(ItemStrings(items, nodes, platform, parent), ",") + "]" + rest)
         == Some((JArray(ProjectItems(items, nodes, parent)), rest))
    decreases |nodes| - parent, 1
  {
    var parts := ItemStrings(items, nodes, platform, parent);
    if parts == [] {
      NoItemStrings(items, nodes, platform, parent);
      assert ProjectItems(items, nodes, parent) == [];
      EmptyBrackets(Join(parts, ","), rest);
    } else {
      FilledArrayRoundTrip(items, nodes, platform, parent, rest);
    }
  }

  /** An array with at least one set element: its elements are read after the `[`. */
  lemma {:induction false} FilledArrayRoundTrip(items: seq<Box>, nodes: set<Box>, platform: Platform, parent: nat,
                                                rest: string)
    requires Closed(nodes) && IsPlatform(platform) && Readable(nodes, platform) && Delimits(rest)
    requires forall c :: c in items ==> c in nodes && parent < c.birth
    requires ItemStrings(items, nodes, platform, parent) != []
    ensures ParseValue("[" + Join(ItemStrings(items, nodes, platform, parent), ",") + "]" + rest)
         == Some((JArray(ProjectItems(items, nodes, parent)), rest))
    decreases |nodes| - parent, 0, |items|, 2
  {
    var parts := ItemStrings(items, nodes, platform, parent);
    assert parts[0] in parts;
    JoinStart(parts, ",");
    ItemsRoundTrip(items, nodes, platform, parent, [], rest);
    OpenArray(Join(parts, ","), rest, ProjectItems(items, nodes, parent));
  }

  lemma ArrayText(b: Box, nodes: set<Box>, platform: Platform)
    requires b in nodes && Closed(nodes) && IsPlatform(platform) && b.value.Array?
    ensures b.JsonString(nodes, platform) == Some("[" + Join(ItemStrings(b.value.items, nodes, platform, b.birth), ",") + "]")
    ensures Project(b, nodes) == Some(JArray(ProjectItems(b.value.items, nodes, b.birth)))
  {
  }

  lemma ObjectText(b: Box, nodes: set<Box>, platform: Platform)
    requires b in nodes && Closed(nodes) && IsPlatform(platform) && b.value.Dictionary?
    ensures b.JsonString(nodes, platform)
         == Some("{" + Join(EntryStrings(platform.order(b.value.entries.Keys), b.value.entries, nodes, platform, b.birth), ",") + "}")
    ensures Project(b, nodes) == Some(JObject(ProjectEntries(b.value.entries, nodes, b.birth)))
  {
  }

  /** An object's text, with its keys in any iteration order, reads back as the projection of its
      entries. */
  lemma {:induction false} ObjectRoundTrip(entries: map<string, Box>, nodes: set<Box>, platform: Platform, parent: nat,
                                           rest: string)
    requires Closed(nodes) && IsPlatform(platform) && Readable(nodes, platform) && Delimits(rest)
    requires forall k :: k in entries ==> entries[k] in nodes && parent < entries[k].birth
    requires forall k :: k in entries ==> ReadableString(platform, k)
    ensures ParseValue("{" + Join(EntryStrings(platform.order(entries.Keys), entries, nodes, platform, parent), ",") + "}" + rest)
         == Some((JObject(ProjectEntries(entries, nodes, parent)), rest))
    decreases |nodes| - parent, 1
  {
    var keys := platform.order(entries.Keys);
    assert Enumerates(keys, entries.Keys);
    var parts := EntryStrings(keys, entries, nodes, platform, parent);
    FieldsOfAllKeys(keys, entries, nodes, parent);
    if parts == [] {
      NoEntryStrings(keys, entries, nodes, platform, parent);
      assert Fields(keys, entries, nodes, parent) == map[];
      EmptyBrackets(Join(parts, ","), rest);
    } else {
      assert parts[0] in parts;
      JoinStart(parts, ",");
      MembersRoundTrip(keys, entries, nodes, platform, parent, map[], rest);
      OpenObject(Join(parts, ","), rest, Fields(keys, entries, nodes, parent));
    }
  }

  /** Nothing between the brackets: an empty array or object. */
  lemma EmptyBrackets(body: string, rest: string)
    requires body == []
    ensures ParseValue("[" + body + "]" + rest) == Some((JArray([]), rest))
    ensures ParseValue("{" + body + "}" + rest) == Some((JObject(map[]), rest))
  {
    var arrayText := "[" + body + "]" + rest;
    var objectText := "{" + body + "}" + rest;
    assert arrayText[1..] == "]" + rest && objectText[1..] == "}" + rest;
    ValueStep(arrayText);
    ValueStep(objectText);
    assert ("]" + rest)[1..] == rest && ("}" + rest)[1..] == rest;
  }

  /** A text opening with a bracket is read as an array or an object. */
  lemma ValueStep(s: string)
    requires |s| > 0
    ensures s[0] == '[' ==> ParseValue(s) == ParseArray(s[1..])
    ensures s[0] == '{' ==> ParseValue(s) == ParseObject(s[1..])
  {
  }

  /** A `[` not directly closed opens a list of elements. */
  lemma ArrayStep(s: string)
    requires |s| > 1 && s[0] == '[' && s[1] != ']'
    ensures ParseValue(s) == ParseElements(s[1..], [])
  {
    ValueStep(s);
  }

  /** A `{` not directly closed opens a list of members. */
  lemma ObjectStep(s: string)
    requires |s| > 1 && s[0] == '{' && s[1] != '}'
    ensures ParseValue(s) == ParseMembers(s[1..], map[])
  {
    ValueStep(s);
  }

  /** The text after an opening bracket. */
  lemma Enclosed(open: char, body: string, close: char, rest: string)
    requires |body| > 0
    ensures |[open] + body + [close] + rest| > 1
    ensures ([open] + body + [close] + rest)[0] == open
    ensures ([open] + body + [close] + rest)[1] == body[0]
    ensures ([open] + body + [close] + rest)[1..] == body + [close] + rest
  {
  }

  lemma OpenArray(body: string, rest: string, elements: seq<Json>)
    requires |body| > 0 && body[0] != ']'
    requires ParseElements(body + "]" + rest, []) == Some((JArray([] + elements), rest))
    ensures ParseValue("[" + body + "]" + rest) == Some((JArray(elements), rest))
  {
    Enclosed('[', body, ']', rest);
    ArrayStep("[" + body + "]" + rest);
    EmptyPrefix(elements);
  }

  lemma OpenObject(body: string, rest: string, members: map<string, Json>)
    requires |body| > 0 && body[0] != '}'
    requires ParseMembers(body + "}" + rest, map[]) == Some((JObject(map[] + members), rest))
    ensures ParseValue("{" + body + "}" + rest) == Some((JObject(members), rest))
  {
    Enclosed('{', body, '}', rest);
    ObjectStep("{" + body + "}" + rest);
    assert map[] + members == members;
  }

  lemma EmptyPrefix(elements: seq<Json>)
    ensures [] + elements == elements
  {
  }

  /** Elements that all render nothing project to nothing. */
  lemma {:induction false} NoItemStrings(items: seq<Box>, nodes: set<Box>, platform: Platform, parent: nat)
    requires Closed(nodes) && IsPlatform(platform)
    requires forall c :: c in items ==> c in nodes && parent < c.birth
    requires ItemStrings(items, nodes, platform, parent) == []
    ensures forall c :: c in items ==> c.value.None?
    decreases |items|
  {
    if items != [] {
      NoItemStrings(items[1..], nodes, platform, parent);
      forall c | c in items ensures c.value.None? {
        if c != items[0] {
          assert c in items[1..];
        }
      }
    }
  }

  /** The comma-separated renderings of the elements, then `]`, read back as the projected
      elements after those already read. */
  lemma {:induction false} ItemsRoundTrip(items: seq<Box>, nodes: set<Box>, platform: Platform, parent: nat,
                                          done: seq<Json>, rest: string)
    requires Closed(nodes) && IsPlatform(platform) && Readable(nodes, platform) && Delimits(rest)
    requires forall c :: c in items ==> c in nodes && parent < c.birth
    requires ItemStrings(items, nodes, platform, parent) != []
    ensures ParseElements(Join(ItemStrings(items, nodes, platform, parent), ",") + "]" + rest, done)
         == Some((JArray(done + ProjectItems(items, nodes, parent)), rest))
    decreases |nodes| - parent, 0, |items|, 1
  {
    ItemsCons(items, nodes, platform, parent);
    if items[0].value.None? {
      ItemsRoundTrip(items[1..], nodes, platform, parent, done, rest);
    } else if ItemStrings(items[1..], nodes, platform, parent) == [] {
      LastItemRoundTrip(items, nodes, platform, parent, done, rest);
    } else {
      NextItemRoundTrip(items, nodes, platform, parent, done, rest);
    }
  }

  /** `ItemStrings` and `ProjectItems` both keep the first element exactly when it is set. */
  lemma ItemsCons(items: seq<Box>, nodes: set<Box>, platform: Platform, parent: nat)
    requires Closed(nodes) && IsPlatform(platform)
    requires forall c :: c in items ==> c in nodes && parent < c.birth
    requires items != []
    ensures items[0].value.None? ==>
      && ItemStrings(items, nodes, platform, parent) == ItemStrings(items[1..], nodes, platform, parent)
      && ProjectItems(items, nodes, parent) == ProjectItems(items[1..], nodes, parent)
    ensures !items[0].value.None? ==>
      && ItemStrings(items, nodes, platform, parent)
         == [items[0].JsonString(nodes, platform).value] + ItemStrings(items[1..], nodes, platform, parent)
      && ProjectItems(items, nodes, parent) == [Project(items[0], nodes).value] + ProjectItems(items[1..], nodes, parent)
  {
  }

  /** The last set element is read and closes the array. */
  lemma {:induction false} LastItemRoundTrip(items: seq<Box>, nodes: set<Box>, platform: Platform, parent: nat,
                                             done: seq<Json>, rest: string)
    requires Closed(nodes) && IsPlatform(platform) && Readable(nodes, platform) && Delimits(rest)
    requires forall c :: c in items ==> c in nodes && parent < c.birth
    requires items != [] && !items[0].value.None? && ItemStrings(items[1..], nodes, platform, parent) == []
    ensures ParseElements(Join(ItemStrings(items, nodes, platform, parent), ",") + "]" + rest, done)
         == Some((JArray(done + ProjectItems(items, nodes, parent)), rest))
    decreases |nodes| - parent, 0, |items|, 0
  {
    var head := items[0];
    var t := head.JsonString(nodes, platform).value;
    var v := Project(head, nodes).value;
    ItemsCons(items, nodes, platform, parent);
    NoItemStrings(items[1..], nodes, platform, parent);
    assert ProjectItems(items, nodes, parent) == [v];
    assert Join([t], ",") == t;
    RoundTrip(head, nodes, platform, "]" + rest);
    assert t + "]" + rest == t + ("]" + rest);
    ElementsLast(t + ("]" + rest), done, v, rest);
  }

  /** A set element followed by more is read, then the rest of the array. */
  lemma {:induction false} NextItemRoundTrip(items: seq<Box>, nodes: set<Box>, platform: Platform, parent: nat,
                                             done: seq<Json>, rest: string)
    requires Closed(nodes) && IsPlatform(platform) && Readable(nodes, platform) && Delimits(rest)
    requires forall c :: c in items ==> c in nodes && parent < c.birth
    requires items != [] && !items[0].value.None? && ItemStrings(items[1..], nodes, platform, parent) != []
    ensures ParseElements(Join(ItemStrings(items, nodes, platform, parent), ",") + "]" + rest, done)
         == Some((JArray(done + ProjectItems(items, nodes, parent)), rest))
    decreases |nodes| - parent, 0, |items|, 0
  {
    var head := items[0];
    var t := head.JsonString(nodes, platform).value;
    var v := Project(head, nodes).value;
    var more := ItemStrings(items[1..], nodes, platform, parent);
    ItemsCons(items, nodes, platform, parent);
    var after := Join(more, ",") + "]" + rest;
    RoundTrip(head, nodes, platform, "," + after);
    ElementsNext(t, more, ItemStrings(items, nodes, platform, parent), rest, done, v);
    ItemsRoundTrip(items[1..], nodes, platform, parent, done + [v], rest);
    ElementsAfter(done, v, ProjectItems(items[1..], nodes, parent));
  }

  lemma ElementsAfter(done: seq<Json>, v: Json, later: seq<Json>)
    ensures done + [v] + later == done + ([v] + later)
  {
  }

  /** An element followed by `,` is read and the elements after the comma follow. */
  lemma ElementsNext(t: string, more: seq<string>, parts: seq<string>, rest: string, done: seq<Json>, v: Json)
    requires more != [] && parts == [t] + more
    requires ParseValue(t + ("," + (Join(more, ",") + "]" + rest))) == Some((v, "," + (Join(more, ",") + "]" + rest)))
    ensures ParseElements(Join(parts, ",") + "]" + rest, done) == ParseElements(Join(more, ",") + "]" + rest, done + [v])
  {
    var after := Join(more, ",") + "]" + rest;
    JoinCons(t, more, ",");
    assert Join(parts, ",") + "]" + rest == t + ("," + after);
    assert ("," + after)[1..] == after;
  }

  /** An element followed by `]` ends the array. */
  lemma ElementsLast(s: string, done: seq<Json>, v: Json, rest: string)
    requires ParseValue(s) == Some((v, "]" + rest))
    ensures ParseElements(s, done) == Some((JArray(done + [v]), rest))
  {
    assert ("]" + rest)[1..] == rest;
  }

  /** Over an enumeration of all the keys, `Fields` is the projection of the entries. */
  lemma FieldsOfAllKeys(keys: seq<string>, entries: map<string, Box>, nodes: set<Box>, parent: nat)
    requires Closed(nodes)
    requires forall k :: k in entries ==> entries[k] in nodes && parent < entries[k].birth
    requires Enumerates(keys, entries.Keys)
    ensures Fields(keys, entries, nodes, parent) == ProjectEntries(entries, nodes, parent)
  {
  }

  /** The projected entries of the keys listed in `keys`. */
  ghost function Fields(keys: seq<string>, entries: map<string, Box>, nodes: set<Box>, parent: nat): map<string, Json>
    requires Closed(nodes)
    requires forall k :: k in entries ==> entries[k] in nodes && parent < entries[k].birth
    reads nodes
  {
    map k | k in keys && k in entries && !entries[k].value.None? :: Project(entries[k], nodes).value
  }

  /** Entries that all render nothing project to nothing. */
  lemma {:induction false} NoEntryStrings(keys: seq<string>, entries: map<string, Box>, nodes: set<Box>,
                                          platform: Platform, parent: nat)
    requires Closed(nodes) && IsPlatform(platform)
    requires forall k :: k in keys ==> k in entries
    requires forall k :: k in entries ==> entries[k] in nodes && parent < entries[k].birth
    requires EntryStrings(keys, entries, nodes, platform, parent) == []
    ensures forall k :: k in keys ==> entries[k].value.None?
    decreases |keys|
  {
    if keys != [] {
      NoEntryStrings(keys[1..], entries, nodes, platform, parent);
      forall k | k in keys ensures entries[k].value.None? {
        if k != keys[0] {
          assert k in keys[1..];
        }
      }
    }
  }

  /** The comma-separated `"key":value` renderings of distinct keys, then `}`, read back as the
      members already read extended with the projected entries of those keys. */
  lemma {:induction false} MembersRoundTrip(keys: seq<string>, entries: map<string, Box>, nodes: set<Box>,
                                            platform: Platform, parent: nat, done: map<string, Json>, rest: string)
    requires Closed(nodes) && IsPlatform(platform) && Readable(nodes, platform) && Delimits(rest)
    requires forall k :: k in keys ==> k in entries
    requires forall k :: k in entries ==> entries[k] in nodes && parent < entries[k].birth
    requires forall k :: k in entries ==> ReadableString(platform, k)
    requires forall i, j :: 0 <= i < j < |keys| ==> keys[i] != keys[j]
    requires EntryStrings(keys, entries, nodes, platform, parent) != []
    ensures ParseMembers(Join(EntryStrings(keys, entries, nodes, platform, parent), ",") + "}" + rest, done)
         == Some((JObject(done + Fields(keys, entries, nodes, parent)), rest))
    decreases |nodes| - parent, 0, |keys|, 1
  {
    EntriesCons(keys, entries, nodes, platform, parent);
    if entries[keys[0]].value.None? {
      MembersRoundTrip(keys[1..], entries, nodes, platform, parent, done, rest);
    } else if EntryStrings(keys[1..], entries, nodes, platform, parent) == [] {
      LastMemberRoundTrip(keys, entries, nodes, platform, parent, done, rest);
    } else {
      NextMemberRoundTrip(keys, entries, nodes, platform, parent, done, rest);
    }
  }

  /** `EntryStrings` and `Fields` both keep the first key exactly when its cell is set. */
  lemma EntriesCons(keys: seq<string>, entries: map<string, Box>, nodes: set<Box>, platform: Platform, parent: nat)
    requires Closed(nodes) && IsPlatform(platform)
    requires forall k :: k in keys ==> k in entries
    requires forall k :: k in entries ==> entries[k] in nodes && parent < entries[k].birth
    requires forall i, j :: 0 <= i < j < |keys| ==> keys[i] != keys[j]
    requires keys != []
    ensures keys[0] !in keys[1..]
    ensures entries[keys[0]].value.None? ==>
      && EntryStrings(keys, entries, nodes, platform, parent) == EntryStrings(keys[1..], entries, nodes, platform, parent)
      && Fields(keys, entries, nodes, parent) == Fields(keys[1..], entries, nodes, parent)
    ensures !entries[keys[0]].value.None? ==>
      && EntryStrings(keys, entries, nodes, platform, parent)
         == [Member(platform, keys[0], entries[keys[0]].JsonString(nodes, platform).value)]
            + EntryStrings(keys[1..], entries, nodes, platform, parent)
      && Fields(keys, entries, nodes, parent)
         == Fields(keys[1..], entries, nodes, parent)[keys[0] := Project(entries[keys[0]], nodes).value]
  {
    DistinctTail(keys);
    EntryStringsCons(keys, entries, nodes, platform, parent);
    FieldsCons(keys, entries, nodes, parent);
  }

  /** The keys after the first of a list of distinct keys are distinct and lack the first. */
  lemma DistinctTail(keys: seq<string>)
    requires forall i, j :: 0 <= i < j < |keys| ==> keys[i] != keys[j]
    requires keys != []
    ensures keys[0] !in keys[1..]
    ensures forall i, j :: 0 <= i < j < |keys[1..]| ==> keys[1..][i] != keys[1..][j]
  {
    var tail := keys[1..];
    forall i | 0 <= i < |tail| ensures tail[i] != keys[0] {
      assert tail[i] == keys[i + 1];
    }
    forall i, j | 0 <= i < j < |tail| ensures tail[i] != tail[j] {
      assert tail[i] == keys[i + 1] && tail[j] == keys[j + 1];
    }
  }

  lemma EntryStringsCons(keys: seq<string>, entries: map<string, Box>, nodes: set<Box>, platform: Platform, parent: nat)
    requires Closed(nodes) && IsPlatform(platform)
    requires forall k :: k in keys ==> k in entries
    requires forall k :: k in entries ==> entries[k] in nodes && parent < entries[k].birth
    requires keys != []
    ensures entries[keys[0]].value.None? ==>
      EntryStrings(keys, entries, nodes, platform, parent) == EntryStrings(keys[1..], entries, nodes, platform, parent)
    ensures !entries[keys[0]].value.None? ==>
      EntryStrings(keys, entries, nodes, platform, parent)
      == [Member(platform, keys[0], entries[keys[0]].JsonString(nodes, platform).value)]
         + EntryStrings(keys[1..], entries, nodes, platform, parent)
  {
  }

  lemma FieldsCons(keys: seq<string>, entries: map<string, Box>, nodes: set<Box>, parent: nat)
    requires Closed(nodes)
    requires forall k :: k in keys ==> k in entries
    requires forall k :: k in entries ==> entries[k] in nodes && parent < entries[k].birth
    requires keys != [] && keys[0] !in keys[1..]
    ensures entries[keys[0]].value.None? ==> Fields(keys, entries, nodes, parent) == Fields(keys[1..], entries, nodes, parent)
    ensures !entries[keys[0]].value.None? ==>
      Fields(keys, entries, nodes, parent)
      == Fields(keys[1..], entries, nodes, parent)[keys[0] := Project(entries[keys[0]], nodes).value]
  {
    assert forall k :: k in keys <==> k == keys[0] || k in keys[1..];
  }

  /** The last set entry is read and closes the object. */
  lemma {:induction false} LastMemberRoundTrip(keys: seq<string>, entries: map<string, Box>, nodes: set<Box>,
                                               platform: Platform, parent: nat, done: map<string, Json>, rest: string)
    requires Closed(nodes) && IsPlatform(platform) && Readable(nodes, platform) && Delimits(rest)
    requires forall k :: k in keys ==> k in entries
    requires forall k :: k in entries ==> entries[k] in nodes && parent < entries[k].birth
    requires forall k :: k in entries ==> ReadableString(platform, k)
    requires forall i, j :: 0 <= i < j < |keys| ==> keys[i] != keys[j]
    requires keys != [] && !entries[keys[0]].value.None? && EntryStrings(keys[1..], entries, nodes, platform, parent) == []
    ensures ParseMembers(Join(EntryStrings(keys, entries, nodes, platform, parent), ",") + "}" + rest, done)
         == Some((JObject(done + Fields(keys, entries, nodes, parent)), rest))
    decreases |nodes| - parent, 0, |keys|, 0
  {
    var key := keys[0];
    var child := entries[key];
    var t := child.JsonString(nodes, platform).value;
    var v := Project(child, nodes).value;
    EntriesCons(keys, entries, nodes, platform, parent);
    NoEntryStrings(keys[1..], entries, nodes, platform, parent);
    assert Fields(keys[1..], entries, nodes, parent) == map[];
    RoundTrip(child, nodes, platform, "}" + rest);
    MembersLast(platform, key, t, EntryStrings(keys, entries, nodes, platform, parent), rest, done, v);
  }

  /** A set entry followed by more is read, then the rest of the object. */
  lemma {:induction false} NextMemberRoundTrip(keys: seq<string>, entries: map<string, Box>, nodes: set<Box>,
                                               platform: Platform, parent: nat, done: map<string, Json>, rest: string)
    requires Closed(nodes) && IsPlatform(platform) && Readable(nodes, platform) && Delimits(rest)
    requires forall k :: k in keys ==> k in entries
    requires forall k :: k in entries ==> entries[k] in nodes && parent < entries[k].birth
    requires forall k :: k in entries ==> ReadableString(platform, k)
    requires forall i, j :: 0 <= i < j < |keys| ==> keys[i] != keys[j]
    requires keys != [] && !entries[keys[0]].value.None? && EntryStrings(keys[1..], entries, nodes, platform, parent) != []
    ensures ParseMembers(Join(EntryStrings(keys, entries, nodes, platform, parent), ",") + "}" + rest, done)
         == Some((JObject(done + Fields(keys, entries, nodes, parent)), rest))
    decreases |nodes| - parent, 0, |keys|, 0
  {
    var key := keys[0];
    var child := entries[key];
    var t := child.JsonString(nodes, platform).value;
    var v := Project(child, nodes).value;
    var more := EntryStrings(keys[1..], entries, nodes, platform, parent);
    EntriesCons(keys, entries, nodes, platform, parent);
    RoundTrip(child, nodes, platform, "," + (Join(more, ",") + "}" + rest));
    MembersNext(platform, key, t, more, EntryStrings(keys, entries, nodes, platform, parent), rest, done, v);
    DistinctTail(keys);
    MembersRoundTrip(keys[1..], entries, nodes, platform, parent, done[key := v], rest);
    FieldsFront(done, Fields(keys[1..], entries, nodes, parent), key, v);
  }

  /** Adding a member first or last makes no difference to a key the others lack. */
  lemma FieldsFront(done: map<string, Json>, fields: map<string, Json>, key: string, v: Json)
    requires key !in fields
    ensures done[key := v] + fields == done + fields[key := v]
  {
  }

  /** A member followed by `,` is read and the members after the comma follow. */
  lemma MembersNext(platform: Platform, key: string, t: string, more: seq<string>, parts: seq<string>, rest: string,
                    done: map<string, Json>, v: Json)
    requires IsPlatform(platform) && ReadableString(platform, key)
    requires more != [] && parts == [Member(platform, key, t)] + more
    requires ParseValue(t + ("," + (Join(more, ",") + "}" + rest))) == Some((v, "," + (Join(more, ",") + "}" + rest)))
    ensures ParseMembers(Join(parts, ",") + "}" + rest, done)
         == ParseMembers(Join(more, ",") + "}" + rest, done[key := v])
  {
    var after := "," + (Join(more, ",") + "}" + rest);
    JoinCons(Member(platform, key, t), more, ",");
    MemberText(platform, key, t, Join(parts, ",") + "}" + rest, after);
    MemberStep(Join(parts, ",") + "}" + rest, key, ":" + (t + after), v, after, done);
  }

  /** A member followed by `}` ends the object. */
  lemma MembersLast(platform: Platform, key: string, t: string, parts: seq<string>, rest: string,
                    done: map<string, Json>, v: Json)
    requires IsPlatform(platform) && ReadableString(platform, key) && parts == [Member(platform, key, t)]
    requires ParseValue(t + ("}" + rest)) == Some((v, "}" + rest))
    ensures ParseMembers(Join(parts, ",") + "}" + rest, done) == Some((JObject(done + map[key := v]), rest))
  {
    var after := "}" + rest;
    MemberText(platform, key, t, Join(parts, ",") + "}" + rest, after);
    MemberStep(Join(parts, ",") + "}" + rest, key, ":" + (t + after), v, after, done);
    assert done[key := v] == done + map[key := v];
  }

  /** The pieces of a member's text followed by `after`. */
  lemma MemberText(platform: Platform, key: string, t: string, s: string, after: string)
    requires IsPlatform(platform) && ReadableString(platform, key) && s == Member(platform, key, t) + after
    ensures |s| > 0 && s[0] == '"'
    ensures ParseString(s[1..]) == Some((key, ":" + (t + after)))
    ensures (":" + (t + after))[1..] == t + after
    ensures |after| > 0 ==> (t + after)[|t|..] == after
  {
    QuotedAsScalars(platform, key);
    assert s == "\"" + (Escaped(key) + "\"" + (":" + (t + after)));
    StringRoundTrip(key, ":" + (t + after));
  }

  /** One member read by `ParseMembers`: its key, its value, then a `,` or a `}`. */
  lemma MemberStep(s: string, key: string, afterKey: string, v: Json, after: string, done: map<string, Json>)
    requires |s| > 0 && s[0] == '"' && ParseString(s[1..]) == Some((key, afterKey))
    requires |afterKey| > 0 && afterKey[0] == ':' && ParseValue(afterKey[1..]) == Some((v, after))
    requires |after| > 0
    ensures after[0] == ',' ==> ParseMembers(s, done) == ParseMembers(after[1..], done[key := v])
    ensures after[0] == '}' ==> ParseMembers(s, done) == Some((JObject(done[key := v]), after[1..]))
  {
  }

  /** Whatever order dictionaries are iterated in and however strings split into clusters, an
      unset cell has no text, and the text of a set cell of a readable tree reads back as the JSON
      value the tree denotes. */
  lemma JsonStringReadsBack(b: Box, nodes: set<Box>, platform: Platform)
    requires b in nodes && Closed(nodes) && IsPlatform(platform) && Readable(nodes, platform)
    ensures b.JsonString(nodes, platform).Some? <==> Project(b, nodes).Some?
    ensures b.JsonString(nodes, platform).Some? ==> Read(b.JsonString(nodes, platform).value) == Project(b, nodes)
  {
    if !b.value.None? {
      RoundTrip(b, nodes, platform, []);
      assert b.JsonString(nodes, platform).value + [] == b.JsonString(nodes, platform).value;
    }
  }

  /** The object a dictionary cell's text reads back as has exactly the keys whose cells are set:
      a key stored for a nested container nobody wrote to, or for a value that encoded nothing,
      does not appear in the output. */
  lemma ReadKeysAreSetEntries(b: Box, nodes: set<Box>, platform: Platform)
    requires b in nodes && Closed(nodes) && IsPlatform(platform) && Readable(nodes, platform) && b.value.Dictionary?
    ensures b.JsonString(nodes, platform).Some?
    ensures Read(b.JsonString(nodes, platform).value).Some? && Read(b.JsonString(nodes, platform).value).value.JObject?
    ensures forall k :: k in Read(b.JsonString(nodes, platform).value).value.fields
                        <==> k in b.value.entries && !b.value.entries[k].value.None?
  {
    JsonStringReadsBack(b, nodes, platform);
    ObjectText(b, nodes, platform);
  }
}

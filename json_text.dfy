/** The text pieces the JSON serializer is built from: the string escaper of `BoxedValue.escape`,
    which works on grapheme clusters, beside the per-scalar escaping a JSON string needs; Swift's
    decimal rendering of integers (`"\(integer)"`); the number syntax of RFC 8259; and
    `joined(separator:)`. */
module JsonText {

  // ---------------------------------------------------------------------------------------------
  // String escaping
  // ---------------------------------------------------------------------------------------------

  const Backspace: char := '\U{8}'
  /** The character the escaper's `"\u{12}"` case matches: U+0012, not the form feed U+000C. */
  const DeviceControlTwo: char := '\U{12}'
  const FormFeed: char := '\U{C}'

  /** The seven characters the escaper rewrites; every other character is copied. */
  predicate IsEscaped(c: char) {
    c == Backspace || c == DeviceControlTwo || c == '\n' || c == '\r' || c == '\t' || c == '"' || c == '\\'
  }

  /** What the escaper writes for one character. */
  function EscapeChar(c: char): (r: string)
    ensures IsEscaped(c) <==> r != [c]
    ensures IsEscaped(c) ==> |r| == 2 && r[0] == '\\'
  {
    if c == Backspace then "\\b"
    else if c == DeviceControlTwo then "\\f"
    else if c == '\n' then "\\n"
    else if c == '\r' then "\\r"
    else if c == '\t' then "\\t"
    else if c == '"' then "\\\""
    else if c == '\\' then "\\\\"
    else [c]
  }

  /** The escaped form of a whole string: the per-character table applied left to right. */
  function Escaped(s: string): (r: string)
  {
    if s == [] then [] else EscapeChar(s[0]) + Escaped(s[1..])
  }

  /** Escaping distributes over concatenation: no output depends on a neighbouring character. */
  lemma {:induction false} EscapedConcat(a: string, b: string)
    ensures Escaped(a + b) == Escaped(a) + Escaped(b)
  {
    if a == [] {
      assert a + b == b;
    } else {
      assert (a + b)[0] == a[0];
      assert (a + b)[1..] == a[1..] + b;
      EscapedConcat(a[1..], b);
    }
  }

  /** How many characters of `s` the escaper rewrites. */
  function EscapeCount(s: string): nat {
    if s == [] then 0 else (if IsEscaped(s[0]) then 1 else 0) + EscapeCount(s[1..])
  }

  /** Each rewritten character grows by exactly one: the output is as long as the input plus the
      number of characters that need escaping. */
  lemma {:induction false} EscapedLength(s: string)
    ensures |Escaped(s)| == |s| + EscapeCount(s)
  {
    if s != [] {
      EscapedLength(s[1..]);
    }
  }

  /** The escaper leaves a string unchanged exactly when none of its characters needs escaping. */
  lemma {:induction false} EscapedUnchanged(s: string)
    ensures Escaped(s) == s <==> forall i :: 0 <= i < |s| ==> !IsEscaped(s[i])
  {
    if s != [] {
      EscapedUnchanged(s[1..]);
      EscapedLength(s[1..]);
      if IsEscaped(s[0]) {
        assert |Escaped(s)| > |s|;
      } else {
        forall i | 0 < i < |s| ensures s[i] == s[1..][i - 1] {
        }
      }
    }
  }

  /** A carriage return followed by a line feed comes out as the four characters `\r\n` from the
      per-scalar table too, the same as the escaper's case for the CR LF cluster. */
  lemma CarriageReturnLineFeed()
    ensures Escaped("\r\n") == "\\r\\n"
  {
    assert "\r\n"[1..] == "\n";
  }

  // ---------------------------------------------------------------------------------------------
  // Escaping by grapheme cluster
  // ---------------------------------------------------------------------------------------------

  /** A Swift `Character`: one grapheme cluster, made of one or more scalars. How a string splits
      into clusters is decided by Unicode's segmentation rules, which are not modelled: it is given. */
  type Character = s: string | |s| > 0 witness "a"

  /** The scalars of a sequence of characters. */
  function Flatten(cs: seq<Character>): string {
    if cs == [] then [] else Flatten(cs[..|cs| - 1]) + cs[|cs| - 1]
  }

  /** The eight cases of the escaper's `switch`: the seven escaped scalars, each as a character of
      its own, and the cluster CR LF. A scalar that shares its cluster with others (a `"` followed
      by a combining accent, say) matches none of them. */
  predicate IsEscapedCharacter(ch: Character) {
    (|ch| == 1 && IsEscaped(ch[0])) || ch == "\r\n"
  }

  /** What the escaper writes for one character: the case that matches, or the character itself. */
  function EscapeCharacter(ch: Character): (r: string)
    ensures IsEscapedCharacter(ch) <==> r != ch
    ensures IsEscapedCharacter(ch) ==> |r| == 2 * |ch| && r[0] == '\\'
  {
    if |ch| == 1 then EscapeChar(ch[0])
    else if ch == "\r\n" then "\\r\\n"
    else ch
  }

  /** The escaped form of a string given as its characters. */
  function EscapeCharacters(cs: seq<Character>): string {
    if cs == [] then [] else EscapeCharacters(cs[..|cs| - 1]) + EscapeCharacter(cs[|cs| - 1])
  }

  /** `BoxedValue.escape`: builds the output character by character. */
  method Escape(cs: seq<Character>) returns (output: string)
    ensures output == EscapeCharacters(cs)
  {
    output := "";
    for i := 0 to |cs|
      invariant output == EscapeCharacters(cs[..i])
    {
      var character := cs[i];
      if character == [Backspace] {
        output := output + "\\b";
      } else if character == [DeviceControlTwo] {
        output := output + "\\f";
      } else if character == "\n" {
        output := output + "\\n";
      } else if character == "\r" {
        output := output + "\\r";
      } else if character == "\r\n" {
        output := output + "\\r\\n";
      } else if character == "\t" {
        output := output + "\\t";
      } else if character == "\"" {
        output := output + "\\\"";
      } else if character == "\\" {
        output := output + "\\\\";
      } else {
        output := output + character;
      }
      assert cs[..i + 1][..i] == cs[..i];
    }
    assert cs[..|cs|] == cs;
  }

  /** How many scalars belong to rewritten characters. */
  function EscapedScalars(cs: seq<Character>): nat {
    if cs == [] then 0
    else EscapedScalars(cs[..|cs| - 1]) + (if IsEscapedCharacter(cs[|cs| - 1]) then |cs[|cs| - 1]| else 0)
  }

  /** Every scalar of a rewritten character becomes two output characters, every other scalar one:
      the output is as long as the input plus the scalars of its rewritten characters. */
  lemma {:induction false} EscapeCharactersLength(cs: seq<Character>)
    ensures |EscapeCharacters(cs)| == |Flatten(cs)| + EscapedScalars(cs)
  {
    if cs != [] {
      EscapeCharactersLength(cs[..|cs| - 1]);
    }
  }

  /** The escaper leaves a string unchanged exactly when none of its characters is one of the
      eight cases. */
  lemma {:induction false} EscapeCharactersUnchanged(cs: seq<Character>)
    ensures EscapeCharacters(cs) == Flatten(cs) <==> forall i :: 0 <= i < |cs| ==> !IsEscapedCharacter(cs[i])
  {
    EscapeCharactersLength(cs);
    if cs != [] {
      var front := cs[..|cs| - 1];
      EscapeCharactersUnchanged(front);
      EscapeCharactersLength(front);
      var last := cs[|cs| - 1];
      assert forall i :: 0 <= i < |front| ==> front[i] == cs[i];
      if IsEscapedCharacter(last) {
        assert EscapedScalars(cs) > 0;
      } else {
        var a, b := EscapeCharacters(front), Flatten(front);
        assert EscapeCharacters(cs) == a + last && Flatten(cs) == b + last;
        if a + last == b + last {
          assert a == (a + last)[..|a|];
        }
      }
    }
  }

  /** Escaping a sequence of characters distributes over its concatenation. */
  lemma {:induction false} EscapeCharactersConcat(a: seq<Character>, b: seq<Character>)
    ensures EscapeCharacters(a + b) == EscapeCharacters(a) + EscapeCharacters(b)
    decreases |b|
  {
    if b == [] {
      assert a + b == a;
    } else {
      var front, last := b[..|b| - 1], b[|b| - 1];
      assert (a + b)[..|a + b| - 1] == a + front && (a + b)[|a + b| - 1] == last;
      EscapeCharactersConcat(a, front);
      calc {
        EscapeCharacters(a + b);
        EscapeCharacters(a + front) + EscapeCharacter(last);
        EscapeCharacters(a) + EscapeCharacters(front) + EscapeCharacter(last);
        EscapeCharacters(a) + (EscapeCharacters(front) + EscapeCharacter(last));
        EscapeCharacters(a) + EscapeCharacters(b);
      }
    }
  }

  /** A character whose escaped scalars, if any, are the whole character or CR LF: escaping it as
      a whole gives the same as escaping its scalars one by one. */
  predicate EscapesAsScalars(ch: Character) {
    IsEscapedCharacter(ch) || forall i :: 0 <= i < |ch| ==> !IsEscaped(ch[i])
  }

  /** When no escaped scalar shares its cluster with another scalar (other than in CR LF), the
      escaper over characters writes exactly the per-scalar `Escaped` of the string. */
  lemma {:induction false} EscapeCharactersAsScalars(cs: seq<Character>)
    requires forall i :: 0 <= i < |cs| ==> EscapesAsScalars(cs[i])
    ensures EscapeCharacters(cs) == Escaped(Flatten(cs))
  {
    if cs != [] {
      var front := cs[..|cs| - 1];
      var last := cs[|cs| - 1];
      assert forall i :: 0 <= i < |front| ==> front[i] == cs[i];
      EscapeCharactersAsScalars(front);
      EscapedConcat(Flatten(front), last);
      if |last| == 1 {
        assert last[1..] == [];
      } else if last == "\r\n" {
        CarriageReturnLineFeed();
      } else {
        EscapedUnchanged(last);
      }
    }
  }

  // ---------------------------------------------------------------------------------------------
  // Decimal integers
  // ---------------------------------------------------------------------------------------------

  predicate IsDigit(c: char) {
    '0' <= c <= '9'
  }

  predicate AllDigits(s: string) {
    forall i :: 0 <= i < |s| ==> IsDigit(s[i])
  }

  /** A decimal numeral as Swift prints an integer: an optional minus sign, then digits with no
      leading zero unless the number is zero. */
  predicate IsDecimal(s: string) {
    var digits := if |s| > 0 && s[0] == '-' then s[1..] else s;
    |digits| > 0 && AllDigits(digits) && (digits[0] == '0' ==> digits == "0") && (s[0] == '-' ==> digits != "0")
  }

  function DigitChar(d: nat): (c: char)
    requires d < 10
    ensures IsDigit(c) && (c as int) - ('0' as int) == d
  {
    ((('0' as int) + d) as char)
  }

  /** The digits of a natural number, most significant first. */
  function Digits(n: nat): (r: string)
    ensures |r| > 0 && AllDigits(r)
    ensures r[0] == '0' <==> n == 0
    ensures n == 0 ==> r == "0"
    decreases n
  {
    if n < 10 then [DigitChar(n)] else Digits(n / 10) + [DigitChar(n % 10)]
  }

  /** `"\(integer)"` for a signed or unsigned integer. */
  function DecimalText(i: int): (r: string)
    ensures IsDecimal(r)
    ensures r[0] == '-' <==> i < 0
  {
    if i < 0 then "-" + Digits(-i) else Digits(i)
  }

  /** The number a digit string denotes. */
  function DigitsValue(s: string): nat
    requires AllDigits(s)
  {
    if s == [] then 0 else 10 * DigitsValue(s[..|s| - 1]) + ((s[|s| - 1] as int) - ('0' as int))
  }

  /** The number a decimal numeral denotes. */
  function DecimalValue(s: string): int
    requires IsDecimal(s)
  {
    if s[0] == '-' then -(DigitsValue(s[1..]) as int) else DigitsValue(s)
  }

  lemma {:induction false} DigitsRoundTrip(n: nat)
    ensures DigitsValue(Digits(n)) == n
    decreases n
  {
    var r := Digits(n);
    if n >= 10 {
      DigitsRoundTrip(n / 10);
      assert r[..|r| - 1] == Digits(n / 10);
    }
  }

  /** Reading back the decimal rendering of an integer gives the integer: the rendering is
      faithful and, in particular, injective. */
  lemma DecimalRoundTrip(i: int)
    ensures DecimalValue(DecimalText(i)) == i
  {
    if i < 0 {
      DigitsRoundTrip(-i);
      assert DecimalText(i)[1..] == Digits(-i);
    } else {
      DigitsRoundTrip(i);
    }
  }

  /** The characters Swift's description of a `Double` or `Float` is made of: digits, sign,
      decimal point, exponent marker, and the letters of `inf`, `nan` and `snan` (a signalling
      NaN). */
  predicate IsNumberChar(c: char) {
    IsDigit(c) || c == '+' || c == '-' || c == '.' || c == 'e' || c == 'E' || c == 'i' || c == 'n' || c == 'f' || c == 'a'
    || c == 's'
  }

  /** A character a JSON value's text can start with. */
  predicate OpensValue(c: char) {
    c == '"' || c == '[' || c == '{' || c == 'n' || c == 't' || IsNumberChar(c)
  }

  /** A bare (unquoted) number as it appears in the serializer's output. */
  predicate IsNumberToken(s: string) {
    |s| > 0 && forall i :: 0 <= i < |s| ==> IsNumberChar(s[i])
  }

  /** The rendering `"\(double)"` / `"\(float)"` of a floating-point value. The formatting itself
      is the platform's and is not modelled: a value is represented by the text it prints as. */
  type FloatText = s: string | IsNumberToken(s) witness "0.0"

  lemma DecimalIsNumberToken(i: int)
    ensures IsNumberToken(DecimalText(i))
  {
  }

  /** The length of the longest prefix made of digits. */
  function DigitRun(s: string): (n: nat)
    ensures n <= |s|
    ensures forall i :: 0 <= i < n ==> IsDigit(s[i])
    ensures n < |s| ==> !IsDigit(s[n])
  {
    if s == [] || !IsDigit(s[0]) then 0 else 1 + DigitRun(s[1..])
  }

  /** A number as section 6 of RFC 8259 writes it: an optional minus sign, an integer part with no
      leading zero, an optional fraction and an optional exponent. `nan` and `inf`, which Swift
      prints for the non-finite floating-point values, are not numbers. */
  predicate IsJsonNumber(s: string) {
    var t := if |s| > 0 && s[0] == '-' then s[1..] else s;
    var n := DigitRun(t);
    n > 0 && (t[0] == '0' ==> n == 1) && IsFractionAndExponent(t[n..])
  }

  predicate IsFractionAndExponent(s: string) {
    if |s| > 0 && s[0] == '.' then
      var n := DigitRun(s[1..]);
      n > 0 && IsExponent(s[1 + n..])
    else IsExponent(s)
  }

  predicate IsExponent(s: string) {
    s == [] ||
    ((s[0] == 'e' || s[0] == 'E') &&
     var digits := if |s| > 1 && (s[1] == '+' || s[1] == '-') then s[2..] else s[1..];
     |digits| > 0 && AllDigits(digits))
  }

  lemma {:induction false} DigitRunAll(s: string)
    requires AllDigits(s)
    ensures DigitRun(s) == |s|
  {
    if s != [] {
      DigitRunAll(s[1..]);
    }
  }

  /** The decimal rendering of an integer is a JSON number. */
  lemma DecimalIsJsonNumber(i: int)
    ensures IsJsonNumber(DecimalText(i))
  {
    var s := DecimalText(i);
    var t := if |s| > 0 && s[0] == '-' then s[1..] else s;
    if i < 0 {
      assert t == Digits(-i);
    } else {
      assert t == Digits(i);
    }
    DigitRunAll(t);
    assert t[|t|..] == [];
  }

  // ---------------------------------------------------------------------------------------------
  // Joining
  // ---------------------------------------------------------------------------------------------

  /** Swift's `joined(separator:)`. */
  function Join(parts: seq<string>, separator: string): string
  {
    if |parts| == 0 then ""
    else if |parts| == 1 then parts[0]
    else parts[0] + separator + Join(parts[1..], separator)
  }

  /** Joining one more part in front. */
  lemma JoinCons(part: string, parts: seq<string>, separator: string)
    requires parts != []
    ensures Join([part] + parts, separator) == part + separator + Join(parts, separator)
  {
    assert ([part] + parts)[1..] == parts;
  }

  /** A joined text starts with its first part. */
  lemma JoinStart(parts: seq<string>, separator: string)
    requires |parts| > 0 && |parts[0]| > 0
    ensures |Join(parts, separator)| > 0 && Join(parts, separator)[0] == parts[0][0]
  {
  }
}

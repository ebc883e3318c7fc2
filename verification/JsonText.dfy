/** RFC 8785 canonical text of a JSON value, and a parser that inverts it.

    Numbers are exact decimals, objects are finite maps, strings are sequences of Unicode scalar values. */
module JsonText {
  import opened Ordering
  import opened Decimal

  datatype Json =
    | Null
    | Bool(b: bool)
    | Zero
    | Num(neg: bool, digits: string, n: int)   // +/- 0.digits x 10^n
    | Str(s: string)
    | Arr(items: seq<Json>)
    | Obj(members: map<string, Json>)

  /** Every number is in the normalized form FormatFloat yields. */
  ghost predicate Valid(j: Json) {
    match j
    case Num(_, d, _) => Normal(d)
    case Arr(items) => forall i :: 0 <= i < |items| ==> Valid(items[i])
    case Obj(m) => forall k :: k in m ==> Valid(m[k])
    case _ => true
  }

  // ---- printing -------------------------------------------------------------------------------

  const HEX := "0123456789abcdef"

  /** One rune of appendCanonicalString. */
  function EscapeRune(r: char): (t: string)
    ensures t != ""
  {
    if r == '"' then "\\\""
    else if r == '\\' then "\\\\"
    else if r == '\U{8}' then "\\b"
    else if r == '\U{C}' then "\\f"
    else if r == '\n' then "\\n"
    else if r == '\r' then "\\r"
    else if r == '\t' then "\\t"
    else if r as int < 0x20 then ['\\', 'u', '0', '0', HEX[r as int / 16], HEX[r as int % 16]]
    else [r]
  }

  function Escape(s: string): string {
    if s == "" then "" else EscapeRune(s[0]) + Escape(s[1..])
  }

  function PrintString(s: string): string { "\"" + Escape(s) + "\"" }

  ghost function Print(j: Json): string
    decreases j, 0
  {
    match j
    case Null => "null"
    case Bool(b) => if b then "true" else "false"
    case Zero => "0"
    case Num(neg, d, n) => (if neg then "-" else "") + (if d == "" then "" else CanonicalDigits(d, n))
    case Str(s) => PrintString(s)
    case Arr(items) => "[" + PrintItems(items) + "]"
    case Obj(m) => "{" + PrintMembers(j, SortedMembers(m)) + "}"
  }

  /** RFC 8785 section 3.2.3 order. */
  ghost function SortedMembers(m: map<string, Json>): seq<string> {
    SortedKeys(Utf16, m.Keys)
  }

  ghost function PrintItems(items: seq<Json>): string
    decreases items, 0
  {
    if items == [] then ""
    else if |items| == 1 then Print(items[0])
    else Print(items[0]) + "," + PrintItems(items[1..])
  }

  /** Members of j under the given keys, in that order; absent keys print nothing. */
  ghost function PrintMembers(j: Json, keys: seq<string>): string
    requires j.Obj?
    decreases j, 0, |keys|
  {
    if keys == [] then ""
    else
      var head := if keys[0] in j.members then PrintString(keys[0]) + ":" + Print(j.members[keys[0]]) else "";
      if |keys| == 1 then head else head + "," + PrintMembers(j, keys[1..])
  }

  // ---- parsing --------------------------------------------------------------------------------

  datatype Parsed<T> = Bad | Got(value: T, rest: string)

  function HexVal(c: char): (v: int)
    ensures -1 <= v < 16
  {
    if '0' <= c <= '9' then c as int - '0' as int
    else if 'a' <= c <= 'f' then c as int - 'a' as int + 10
    else -1
  }

  /** One escape after its backslash. */
  function ParseEscape(s: string): (r: Parsed<char>)
    ensures r.Got? ==> |r.rest| < |s|
  {
    if s == "" then Bad
    else match s[0]
      case '"' => Got('"', s[1..])
      case '\\' => Got('\\', s[1..])
      case 'b' => Got('\U{8}', s[1..])
      case 'f' => Got('\U{C}', s[1..])
      case 'n' => Got('\n', s[1..])
      case 'r' => Got('\r', s[1..])
      case 't' => Got('\t', s[1..])
      case 'u' =>
        if |s| >= 5 && s[1] == '0' && s[2] == '0' && HexVal(s[3]) >= 0 && HexVal(s[4]) >= 0
        then Got((16 * HexVal(s[3]) + HexVal(s[4])) as char, s[5..]) else Bad
      case _ => Bad
  }

  /** String contents up to and including the closing quote. */
  function ParseChars(s: string): (r: Parsed<string>)
    ensures r.Got? ==> |r.rest| < |s|
    decreases |s|
  {
    if s == "" then Bad
    else if s[0] == '"' then Got("", s[1..])
    else if s[0] == '\\' then
      match ParseEscape(s[1..])
      case Bad => Bad
      case Got(c, rest) =>
        (match ParseChars(rest) case Bad => Bad case Got(t, rest') => Got([c] + t, rest'))
    else
      match ParseChars(s[1..]) case Bad => Bad case Got(t, rest') => Got([s[0]] + t, rest')
  }

  function ParseString(s: string): (r: Parsed<string>)
    ensures r.Got? ==> |r.rest| < |s|
  {
    if s != "" && s[0] == '"' then ParseChars(s[1..]) else Bad
  }

  predicate NumberChar(c: char) {
    IsDigit(c) || c == '.' || c == 'e' || c == '+' || c == '-'
  }

  function NumberSpan(s: string): (k: nat)
    ensures k <= |s|
  {
    if s == "" || !NumberChar(s[0]) then 0 else 1 + NumberSpan(s[1..])
  }

  function ParseNumber(text: string): Json {
    if text == "0" then Zero
    else
      var neg := text != "" && text[0] == '-';
      var (d, n) := Normalize(ReadLiteral(if neg then text[1..] else text));
      Num(neg, d, n)
  }

  function Literally(s: string, word: string, j: Json): (r: Parsed<Json>)
    requires word != ""
    ensures r.Got? ==> |r.rest| < |s|
  {
    if word <= s then Got(j, s[|word|..]) else Bad
  }

  function ParseLeaf(s: string): (r: Parsed<Json>)
    requires s != ""
    ensures r.Got? ==> |r.rest| < |s|
  {
    if s[0] == 'n' then Literally(s, "null", Null)
    else if s[0] == 't' then Literally(s, "true", Bool(true))
    else if s[0] == 'f' then Literally(s, "false", Bool(false))
    else if s[0] == '"' then
      (match ParseString(s) case Bad => Bad case Got(t, rest) => Got(Str(t), rest))
    else
      var k := NumberSpan(s);
      if k == 0 then Bad else Got(ParseNumber(s[..k]), s[k..])
  }

  function Parse(s: string): (r: Parsed<Json>)
    ensures r.Got? ==> |r.rest| < |s|
    decreases |s|, 0
  {
    if s == "" then Bad
    else if s[0] == '[' then ParseArray(s[1..])
    else if s[0] == '{' then ParseObject(s[1..])
    else ParseLeaf(s)
  }

  function ParseArray(s: string): (r: Parsed<Json>)
    ensures r.Got? ==> |r.rest| < |s|
    decreases |s|, 2
  {
    if s != "" && s[0] == ']' then Got(Arr([]), s[1..])
    else match ParseItems(s) case Bad => Bad case Got(items, rest) => Got(Arr(items), rest)
  }

  function ParseObject(s: string): (r: Parsed<Json>)
    ensures r.Got? ==> |r.rest| < |s|
    decreases |s|, 2
  {
    if s != "" && s[0] == '}' then Got(Obj(map[]), s[1..])
    else match ParseMembers(s) case Bad => Bad case Got(m, rest) => Got(Obj(m), rest)
  }

  /** Comma-separated values up to and including ']'. */
  function ParseItems(s: string): (r: Parsed<seq<Json>>)
    ensures r.Got? ==> |r.rest| < |s|
    decreases |s|, 1
  {
    match Parse(s)
    case Bad => Bad
    case Got(j, rest) =>
      if rest == "" then Bad
      else if rest[0] == ']' then Got([j], rest[1..])
      else if rest[0] == ',' then
        (match ParseItems(rest[1..]) case Bad => Bad case Got(js, rest') => Got([j] + js, rest'))
      else Bad
  }

  /** Comma-separated members up to and including '}'. */
  function ParseMembers(s: string): (r: Parsed<map<string, Json>>)
    ensures r.Got? ==> |r.rest| < |s|
    decreases |s|, 1
  {
    match ParseString(s)
    case Bad => Bad
    case Got(k, rest) =>
      if rest == "" || rest[0] != ':' then Bad
      else
        match Parse(rest[1..])
        case Bad => Bad
        case Got(j, rest') =>
          if rest' == "" then Bad
          else if rest'[0] == '}' then Got(map[k := j], rest'[1..])
          else if rest'[0] == ',' then
            (match ParseMembers(rest'[1..]) case Bad => Bad case Got(m, rest'') => Got(m[k := j], rest''))
          else Bad
  }

  // ---- strings round-trip ---------------------------------------------------------------------

  lemma EscapeRuneBack(r: char, rest: string)
    ensures var t := EscapeRune(r);
      if t[0] == '\\' then ParseEscape(t[1..] + rest) == Got(r, rest)
      else t == [r] && r != '"' && r != '\\'
  {
    var t := EscapeRune(r);
    if t[0] == '\\' {
      var s := t[1..] + rest;
      assert s[|t| - 1..] == rest;
      if |t| == 6 {
        assert HexVal(HEX[r as int / 16]) == r as int / 16;
        assert HexVal(HEX[r as int % 16]) == r as int % 16;
      }
    }
  }

  lemma CharStep(r: char, more: string, tail: string, rest: string)
    requires ParseChars(more) == Got(tail, rest)
    ensures ParseChars(EscapeRune(r) + more) == Got([r] + tail, rest)
  {
    var t := EscapeRune(r);
    EscapeRuneBack(r, more);
    hide EscapeRune, ParseEscape;
    var text := t + more;
    assert text[0] == t[0] && text[1..] == t[1..] + more;
    if t[0] != '\\' {
      assert text[1..] == more;
    }
  }

  lemma {:induction false} CharsRoundTrip(s: string, rest: string)
    ensures ParseChars(Escape(s) + "\"" + rest) == Got(s, rest)
  {
    if s == "" {
      assert (Escape(s) + "\"" + rest)[1..] == rest;
    } else {
      hide ParseChars, EscapeRune;
      var more := Escape(s[1..]) + "\"" + rest;
      CharsRoundTrip(s[1..], rest);
      CharStep(s[0], more, s[1..], rest);
      assert Escape(s) + "\"" + rest == EscapeRune(s[0]) + more;
      assert s == [s[0]] + s[1..];
    }
  }

  lemma StringRoundTrip(s: string, rest: string)
    ensures ParseString(PrintString(s) + rest) == Got(s, rest)
  {
    var text := PrintString(s) + rest;
    assert text[1..] == Escape(s) + "\"" + rest;
    CharsRoundTrip(s, rest);
  }

  // ---- numbers round-trip ---------------------------------------------------------------------

  predicate Delimited(rest: string) { rest == "" || !NumberChar(rest[0]) }

  lemma {:induction false} SpanStops(t: string, rest: string)
    requires (forall i :: 0 <= i < |t| ==> NumberChar(t[i])) && Delimited(rest)
    ensures NumberSpan(t + rest) == |t|
  {
    if t == "" {
      assert t + rest == rest;
    } else {
      assert (t + rest)[1..] == t[1..] + rest;
      SpanStops(t[1..], rest);
    }
  }

  lemma CanonicalDigitsChars(d: string, n: int)
    requires Normal(d)
    ensures var t := CanonicalDigits(d, n);
      t != "" && t != "0" && IsDigit(t[0]) && forall i :: 0 <= i < |t| ==> NumberChar(t[i])
  {
    var t := CanonicalDigits(d, n);
    assert -6 < n <= 0 ==> t[1] == '.';
    if n > 21 || n <= -6 {
      var mantissa := if |d| == 1 then d else d[..1] + "." + d[1..];
      var ex := CanonicalExponent(n - 1);
      assert t == mantissa + "e" + ex;
      assert forall i :: 0 <= i < |ex| ==> NumberChar(ex[i]);
      assert forall i :: 0 <= i < |mantissa| ==> NumberChar(mantissa[i]);
      assert t[0] == d[0];
    }
  }

  lemma ReadNumberText(neg: bool, d: string, n: int)
    requires Normal(d)
    ensures ParseNumber((if neg then "-" else "") + CanonicalDigits(d, n)) == Num(neg, d, n)
  {
    var digits := CanonicalDigits(d, n);
    CanonicalDigitsChars(d, n);
    CanonicalDigitsRoundTrip(d, n);
    hide CanonicalDigits, ReadLiteral, Normalize, Normal;
    assert ("-" + digits)[1..] == digits && "" + digits == digits;
  }

  lemma NumberRoundTrip(j: Json, rest: string)
    requires j.Num? && Valid(j) && Delimited(rest)
    ensures ParseLeaf(Print(j) + rest) == Got(j, rest)
  {
    var digits := CanonicalDigits(j.digits, j.n);
    var t := (if j.neg then "-" else "") + digits;
    assert Print(j) == t;
    CanonicalDigitsChars(j.digits, j.n);
    ReadNumberText(j.neg, j.digits, j.n);
    NumberLeaf(t, rest);
  }

  lemma NumberLeaf(t: string, rest: string)
    requires t != "" && (t[0] == '-' || IsDigit(t[0])) && Delimited(rest)
    requires forall i :: 0 <= i < |t| ==> NumberChar(t[i])
    ensures ParseLeaf(t + rest) == Got(ParseNumber(t), rest)
  {
    SpanStops(t, rest);
    hide ParseNumber, NumberSpan, ParseString, Literally;
    assert (t + rest)[..|t|] == t && (t + rest)[|t|..] == rest;
  }

  // ---- values round-trip ----------------------------------------------------------------------

  /** A number needs something after it that is not part of a number; nothing else does. */
  predicate Ends(j: Json, rest: string) { j.Num? || j.Zero? ==> Delimited(rest) }

  lemma EndsAtMark(j: Json, rest: string)
    requires rest != "" && rest[0] in ",]}"
    ensures Ends(j, rest)
  {}

  /** No canonical text starts with a closing bracket, so an empty composite is unambiguous. */
  lemma FirstChar(j: Json)
    requires Valid(j)
    ensures Print(j) != "" && Print(j)[0] != ']' && Print(j)[0] != '}'
  {
    if j.Num? { CanonicalDigitsChars(j.digits, j.n); }
  }

  lemma LeafStart(j: Json)
    requires Valid(j) && !j.Arr? && !j.Obj?
    ensures Print(j) != "" && Print(j)[0] != '[' && Print(j)[0] != '{'
  {
    if j.Num? { CanonicalDigitsChars(j.digits, j.n); }
  }

  lemma WordRoundTrip(j: Json, rest: string)
    ensures Literally("null" + rest, "null", j) == Got(j, rest)
    ensures Literally("true" + rest, "true", j) == Got(j, rest)
    ensures Literally("false" + rest, "false", j) == Got(j, rest)
  {
    assert ("null" + rest)[4..] == rest && ("true" + rest)[4..] == rest && ("false" + rest)[5..] == rest;
    assert "null" <= "null" + rest && "true" <= "true" + rest && "false" <= "false" + rest;
  }

  lemma LeafRoundTrip(j: Json, rest: string)
    requires Valid(j) && Ends(j, rest) && !j.Arr? && !j.Obj?
    ensures ParseLeaf(Print(j) + rest) == Got(j, rest)
  {
    match j
    case Null => WordRoundTrip(j, rest);
    case Bool(b) => WordRoundTrip(j, rest);
    case Zero => NumberLeaf("0", rest);
    case Num(_, _, _) => NumberRoundTrip(j, rest);
    case Str(s) =>
      StringRoundTrip(s, rest);
      hide ParseString;
      assert (PrintString(s) + rest)[0] == '"';
  }

  /** Parsing the canonical text of j gives back j and leaves what follows untouched. */
  lemma {:induction false} RoundTrip(j: Json, rest: string)
    requires Valid(j) && Ends(j, rest)
    ensures Parse(Print(j) + rest) == Got(j, rest)
    decreases j, 2
  {
    if j.Arr? {
      ArrayRoundTrip(j, rest);
    } else if j.Obj? {
      ObjectRoundTrip(j, rest);
    } else {
      LeafRoundTrip(j, rest);
      LeafStart(j);
      hide Print, ParseLeaf;
      assert (Print(j) + rest)[0] == Print(j)[0];
    }
  }

  lemma Bracketed(open: char, body: string, close: char, rest: string)
    ensures [open] + body + [close] + rest == [open] + (body + [close] + rest)
    ensures ([open] + (body + [close] + rest))[1..] == body + [close] + rest
    ensures body == "" ==> (body + [close] + rest)[1..] == rest
  {}

  lemma {:induction false} ArrayRoundTrip(j: Json, rest: string)
    requires Valid(j) && j.Arr?
    ensures Parse(Print(j) + rest) == Got(j, rest)
    decreases j, 1
  {
    var inner := PrintItems(j.items) + "]" + rest;
    Bracketed('[', PrintItems(j.items), ']', rest);
    assert ParseArray(inner) == Got(j, rest) by {
      if j.items != [] {
        FirstChar(j.items[0]);
        assert inner[0] == Print(j.items[0])[0];
        ItemsRoundTrip(j.items, rest);
      }
    }
  }

  lemma ObjectKeys(m: map<string, Json>)
    ensures var keys := SortedMembers(m);
      Distinct(keys) && (forall k :: k in keys <==> k in m) && (keys == [] <==> m == map[])
  {
    var keys := SortedMembers(m);
    EncodingsInjective();
    SortedKeysSpec(Utf16, m.Keys);
    assert forall k :: k in keys <==> k in m.Keys;
    assert keys != [] ==> keys[0] in m.Keys;
    if m != map[] {
      var k :| k in m;
      assert k in keys;
    }
  }

  lemma {:induction false} ObjectRoundTrip(j: Json, rest: string)
    requires Valid(j) && j.Obj?
    ensures Parse(Print(j) + rest) == Got(j, rest)
    decreases j, 1, 1
  {
    var keys := SortedMembers(j.members);
    ObjectBody(j, keys, rest);
    Bracketed('{', PrintMembers(j, keys), '}', rest);
  }

  lemma MembersStart(j: Json, keys: seq<string>)
    requires j.Obj? && keys != [] && keys[0] in j.members
    ensures PrintMembers(j, keys) != "" && PrintMembers(j, keys)[0] == '"'
  {
    assert PrintString(keys[0])[0] == '"';
  }

  lemma AllMembers(m: map<string, Json>, keys: seq<string>)
    requires forall k :: k in keys <==> k in m
    ensures (map k | k in keys :: m[k]) == m
  {}

  lemma {:induction false} ObjectBody(j: Json, keys: seq<string>, rest: string)
    requires Valid(j) && j.Obj? && keys == SortedMembers(j.members)
    ensures ParseObject(PrintMembers(j, keys) + "}" + rest) == Got(j, rest)
    decreases j, 1, 0
  {
    var m := j.members;
    var body := PrintMembers(j, keys);
    var inner := body + "}" + rest;
    ObjectKeys(m);
    if keys == [] {
      Bracketed('{', body, '}', rest);
      assert ParseObject(inner) == Got(Obj(map[]), rest);
    } else {
      MembersRoundTrip(j, keys, rest);
      MembersStart(j, keys);
      AllMembers(m, keys);
      assert inner[0] == body[0];
      assert ParseObject(inner) == Got(Obj(m), rest);
    }
  }

  /** ParseItems on one item followed by more text. */
  lemma ItemStep(j: Json, text: string, after: string)
    requires after != "" && Parse(text) == Got(j, after)
    ensures after[0] == ']' ==> ParseItems(text) == Got([j], after[1..])
    ensures after[0] == ',' && ParseItems(after[1..]).Got? ==>
      var r := ParseItems(after[1..]); ParseItems(text) == Got([j] + r.value, r.rest)
  {}

  lemma ItemsShape(v: string, tail: string, rest: string)
    ensures v + "]" + rest == v + ("]" + rest)
    ensures (v + "," + tail) + "]" + rest == v + ("," + (tail + "]" + rest))
  {}

  lemma ItemsHead(items: seq<Json>)
    requires items != []
    ensures PrintItems(items) == if |items| == 1 then Print(items[0])
      else Print(items[0]) + "," + PrintItems(items[1..])
  {
    hide Print;
  }

  lemma {:induction false} ItemsRoundTrip(items: seq<Json>, rest: string)
    requires items != [] && forall i :: 0 <= i < |items| ==> Valid(items[i])
    ensures ParseItems(PrintItems(items) + "]" + rest) == Got(items, rest)
    decreases items, 0
  {
    hide *;
    ItemsHead(items);
    var j := items[0];
    if |items| == 1 {
      var after := "]" + rest;
      assert after[1..] == rest && items == [j];
      EndsAtMark(j, after);
      RoundTrip(j, after);
      ItemStep(j, Print(j) + after, after);
      ItemsShape(Print(j), "", rest);
    } else {
      var more := PrintItems(items[1..]) + "]" + rest;
      var after := "," + more;
      assert after[1..] == more && items == [j] + items[1..];
      EndsAtMark(j, after);
      RoundTrip(j, after);
      ItemsRoundTrip(items[1..], rest);
      ItemStep(j, Print(j) + after, after);
      ItemsShape(Print(j), PrintItems(items[1..]), rest);
    }
  }

  /** ParseMembers on one member followed by more text. */
  lemma MemberStep(k: string, v: Json, text: string, after: string)
    requires text != "" && after != "" && Parse(text) == Got(v, after)
    ensures var r := ParseMembers(PrintString(k) + (":" + text));
      (after[0] == '}' ==> r == Got(map[k := v], after[1..])) &&
      (after[0] == ',' && ParseMembers(after[1..]).Got? ==>
        var m := ParseMembers(after[1..]); r == Got(m.value[k := v], m.rest))
  {
    StringRoundTrip(k, ":" + text);
    assert (":" + text)[1..] == text;
  }

  lemma {:induction false} MembersRoundTrip(j: Json, keys: seq<string>, rest: string)
    requires j.Obj? && Valid(j) && keys != [] && Distinct(keys)
    requires forall k :: k in keys ==> k in j.members
    ensures ParseMembers(PrintMembers(j, keys) + "}" + rest) == Got(map k | k in keys :: j.members[k], rest)
    decreases j, 0, |keys|
  {
    MembersHead(j, keys);
    assert forall x :: x in keys[1..] ==> x in keys;
    assert Valid(j.members[keys[0]]) && Distinct(keys[1..]);
    hide *;
    var k := keys[0];
    var v := j.members[k];
    var last := |keys| == 1;
    var more := if last then rest else PrintMembers(j, keys[1..]) + "}" + rest;
    var after := (if last then "}" else ",") + more;
    assert after[1..] == more;
    FirstChar(v);
    EndsAtMark(v, after);
    RoundTrip(v, after);
    MemberStep(k, v, Print(v) + after, after);
    MembersShape(PrintString(k), Print(v), if last then "" else PrintMembers(j, keys[1..]), rest);
    MembersJoin(j, keys);
    if !last {
      MembersRoundTrip(j, keys[1..], rest);
    }
  }

  lemma MembersHead(j: Json, keys: seq<string>)
    requires j.Obj? && keys != [] && keys[0] in j.members
    ensures var head := PrintString(keys[0]) + ":" + Print(j.members[keys[0]]);
      PrintMembers(j, keys) == if |keys| == 1 then head else head + "," + PrintMembers(j, keys[1..])
  {}

  lemma MembersShape(k: string, v: string, tail: string, rest: string)
    ensures (k + ":" + v) + "}" + rest == k + (":" + (v + ("}" + rest)))
    ensures ((k + ":" + v) + "," + tail) + "}" + rest == k + (":" + (v + ("," + (tail + "}" + rest))))
  {}

  lemma MembersJoin(j: Json, keys: seq<string>)
    requires j.Obj? && keys != [] && forall k :: k in keys ==> k in j.members
    ensures (map x | x in keys :: j.members[x])
         == (map x | x in keys[1..] :: j.members[x])[keys[0] := j.members[keys[0]]]
    ensures |keys| == 1 ==> (map x | x in keys :: j.members[x]) == map[keys[0] := j.members[keys[0]]]
  {
    assert keys == [keys[0]] + keys[1..];
  }

  /** Two JSON values print to the same text exactly when they are the same value. */
  lemma PrintInjective(a: Json, b: Json)
    requires Valid(a) && Valid(b)
    ensures Print(a) == Print(b) <==> a == b
  {
    RoundTrip(a, "");
    RoundTrip(b, "");
  }
}

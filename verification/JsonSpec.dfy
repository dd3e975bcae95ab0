/** JSON trees, the two printers and the parser, as functions on C strings. A text is the characters
    before the terminating NUL; a character stands for an unsigned char. */
module JsonSpec {

  datatype Json =
    | Null
    | False
    | True
    | Number(n: int)
    | String(s: string)
    | Array(items: seq<Json>)
    | Object(members: seq<Member>)

  datatype Member = Member(name: string, value: Json)

  const INT_MIN: int := -0x8000_0000
  const INT_MAX: int := 0x7FFF_FFFF

  /** Strings and names are C strings, numbers are C ints. */
  predicate Representable(t: Json) {
    match t
    case Number(n) => INT_MIN <= n <= INT_MAX
    case String(s) => '\0' !in s
    case Array(items) => forall i | 0 <= i < |items| :: Representable(items[i])
    case Object(ms) => forall i | 0 <= i < |ms| :: '\0' !in ms[i].name && Representable(ms[i].value)
    case _ => true
  }

  // ---------- printing ----------

  function Digit(d: nat): char
    requires d < 10
  {
    '0' + d as char
  }

  predicate IsDigit(c: char) {
    '0' <= c <= '9'
  }

  /** %d on a non-negative number. */
  function Digits(n: nat): (s: string)
    ensures |s| > 0 && forall i :: 0 <= i < |s| ==> IsDigit(s[i])
  {
    if n < 10 then [Digit(n)] else Digits(n / 10) + [Digit(n % 10)]
  }

  function PrintNumber(n: int): string {
    if n < 0 then "-" + Digits(-n) else Digits(n)
  }

  function HexDigit(d: nat): char
    requires d < 16
  {
    if d < 10 then '0' + d as char else 'a' + (d - 10) as char
  }

  predicate Plain(c: char) {
    c > 31 as char && c != '\"' && c != '\\'
  }

  /** What stands for c between the quotes. */
  function EscapeChar(c: char): (s: string)
    ensures |s| >= 1
  {
    if Plain(c) then [c]
    else if c == '\\' then "\\\\"
    else if c == '\"' then "\\\""
    else if c == 8 as char then "\\b"
    else if c == 12 as char then "\\f"
    else if c == '\n' then "\\n"
    else if c == '\r' then "\\r"
    else if c == '\t' then "\\t"
    else "\\u00" + [HexDigit(c as nat / 16 % 16), HexDigit(c as nat % 16)]
  }

  function Escape(s: string): string {
    if s == [] then [] else EscapeChar(s[0]) + Escape(s[1..])
  }

  function PrintString(s: string): string {
    "\"" + Escape(s) + "\""
  }

  function Tabs(n: int): (s: string)
    ensures |s| == if n > 0 then n else 0
  {
    if n <= 0 then [] else Tabs(n - 1) + "\t"
  }

  function If(fmt: bool, s: string): string {
    if fmt then s else []
  }

  /** print_value; fmt asks for the formatted text. */
  function Print(t: Json, depth: nat, fmt: bool): string
    decreases t
  {
    match t
    case Null => "null"
    case False => "false"
    case True => "true"
    case Number(n) => PrintNumber(n)
    case String(s) => PrintString(s)
    case Array(items) =>
      if items == [] then "[]" else "[" + PrintItems(items, depth + 1, fmt) + "]"
    case Object(ms) =>
      if ms == [] then "{" + If(fmt, "\n" + Tabs(depth - 1)) + "}"
      else "{" + If(fmt, "\n") + PrintMembers(ms, depth + 1, fmt) + If(fmt, Tabs(depth)) + "}"
  }

  function PrintItems(items: seq<Json>, depth: nat, fmt: bool): string
    decreases items
  {
    if items == [] then []
    else Print(items[0], depth, fmt) + (if |items| == 1 then [] else "," + If(fmt, " ") + PrintItems(items[1..], depth, fmt))
  }

  function PrintMembers(ms: seq<Member>, depth: nat, fmt: bool): string
    decreases ms
  {
    if ms == [] then []
    else If(fmt, Tabs(depth)) + PrintString(ms[0].name) + ":" + If(fmt, "\t") + Print(ms[0].value, depth, fmt)
         + (if |ms| == 1 then [] else ",") + If(fmt, "\n") + PrintMembers(ms[1..], depth, fmt)
  }

  // ---------- parsing ----------

  /** What a parse function leaves: a value and the rest of the text, a failure, or Beyond for texts
      whose handling is not modelled: numbers that are not C ints, malformed \u escapes, and a
      backslash right before the end. */
  datatype Parsed<+T> = Ok(value: T, rest: string) | Fail | Beyond {
    predicate IsFailure() { !Ok? }
    function PropagateFailure<U>(): Parsed<U> requires !Ok? { if Fail? then Fail else Parsed<U>.Beyond }
    function Extract(): (T, string) requires Ok? { (value, rest) }
  }

  predicate StartsWith(s: string, p: string) {
    |p| <= |s| && s[..|p|] == p
  }

  /** The character pointed at; NUL at the end of the text. */
  function Peek(s: string): char {
    if s == [] then '\0' else s[0]
  }

  function Skip(s: string): (r: string)
    ensures |r| <= |s|
    ensures Peek(r) as nat > 32 || r == []
    decreases |s|
  {
    if s != [] && s[0] as nat <= 32 then Skip(s[1..]) else s
  }

  /** Skipping takes off a prefix of control characters and blanks, and nothing else. */
  lemma {:induction false} SkipTakesBlanks(s: string)
    ensures var n := |s| - |Skip(s)|; Skip(s) == s[n..] && forall i :: 0 <= i < n ==> s[i] as nat <= 32
    ensures Peek(Skip(s)) as nat > 32 || Skip(s) == []
    decreases |s|
  {
    if s != [] && s[0] as nat <= 32 { SkipTakesBlanks(s[1..]); }
  }

  /** The digit loop: the accumulated value and the rest. */
  function ScanDigits(s: string, acc: nat): (r: (nat, string))
    ensures |r.1| <= |s|
    ensures IsDigit(Peek(s)) ==> |r.1| < |s|
    ensures !IsDigit(Peek(r.1))
    decreases |s|
  {
    if IsDigit(Peek(s)) then ScanDigits(s[1..], 10 * acc + (s[0] - '0') as nat) else (acc, s)
  }

  function ParseNumber(s: string): (r: Parsed<int>)
    requires Peek(s) == '-' || IsDigit(Peek(s))
    ensures r.Ok? ==> |r.rest| < |s|
  {
    var s1 := if Peek(s) == '-' then s[1..] else s;
    var s2 := if Peek(s1) == '0' then s1[1..] else s1;
    var (n, rest) := if '1' <= Peek(s2) <= '9' then ScanDigits(s2, 0) else (0, s2);
    var v: int := if Peek(s) == '-' then -(n as int) else n;
    if (Peek(rest) == '.' && IsDigit(Peek(rest[1..]))) || Peek(rest) == 'e' || Peek(rest) == 'E' || !(INT_MIN <= v <= INT_MAX) then Beyond
    else Ok(v, rest)
  }

  function HexValue(c: char): (d: int)
    ensures -1 <= d < 16
  {
    if '0' <= c <= '9' then (c - '0') as int
    else if 'A' <= c <= 'F' then 10 + (c - 'A') as int
    else if 'a' <= c <= 'f' then 10 + (c - 'a') as int
    else -1
  }

  /** Four hex digits at the start of s; -1 when they are not there. */
  function Hex4(s: string): (v: int)
    ensures -1 <= v < 0x1_0000
    ensures v >= 0 ==> |s| >= 4
  {
    if |s| < 4 || HexValue(s[0]) < 0 || HexValue(s[1]) < 0 || HexValue(s[2]) < 0 || HexValue(s[3]) < 0 then -1
    else ((HexValue(s[0]) * 16 + HexValue(s[1])) * 16 + HexValue(s[2])) * 16 + HexValue(s[3])
  }

  /** A Unicode scalar as UTF-8 (section 3 of RFC 3629), one character per byte. */
  function Utf8(uc: nat): (bytes: string)
    requires uc < 0x11_0000
    ensures 1 <= |bytes| <= 4
  {
    if uc < 0x80 then [uc as char]
    else if uc < 0x800 then [(0xC0 + uc / 64) as char, (0x80 + uc % 64) as char]
    else if uc < 0x1_0000 then [(0xE0 + uc / 4096) as char, (0x80 + uc / 64 % 64) as char, (0x80 + uc % 64) as char]
    else [(0xF0 + uc / 262144) as char, (0x80 + uc / 4096 % 64) as char, (0x80 + uc / 64 % 64) as char, (0x80 + uc % 64) as char]
  }

  /** The text of a \u escape after the u: what it stands for, and what follows it. A stray or
      zero code unit stands for nothing. */
  function UnescapeUnit(s: string): (r: Parsed<string>)
    ensures !r.Fail?
    ensures r.Ok? ==> |r.rest| < |s|
  {
    var uc := Hex4(s);
    if uc < 0 then Beyond
    else if 0xDC00 <= uc <= 0xDFFF || uc == 0 then Ok("", s[4..])
    else if 0xD800 <= uc <= 0xDBFF then
      var s1 := s[4..];
      if !StartsWith(s1, "\\u") then Ok("", s1)
      else
        var uc2 := Hex4(s1[2..]);
        if uc2 < 0 then Beyond
        else if !(0xDC00 <= uc2 <= 0xDFFF) then Ok("", s1[6..])
        else Ok(Utf8(0x1_0000 + uc % 0x400 * 0x400 + uc2 % 0x400), s1[6..])
    else Ok(Utf8(uc), s[4..])
  }

  function Unescaped(c: char): char {
    if c == 'b' then 8 as char
    else if c == 'f' then 12 as char
    else if c == 'n' then '\n'
    else if c == 'r' then '\r'
    else if c == 't' then '\t'
    else c
  }

  /** The body of a string literal, up to its closing quote or the end of the text. */
  function ParseBody(s: string): (r: Parsed<string>)
    ensures !r.Fail?
    ensures r.Ok? ==> |r.rest| <= |s|
    decreases |s|
  {
    if s == [] then Ok("", s)
    else if s[0] == '\"' then Ok("", s[1..])
    else if s[0] != '\\' then
      var (more, rest) :- ParseBody(s[1..]);
      Ok([s[0]] + more, rest)
    else if |s| == 1 then Beyond
    else if s[1] == 'u' then
      var (unit, s1) :- UnescapeUnit(s[2..]);
      var (more, rest) :- ParseBody(s1);
      Ok(unit + more, rest)
    else
      var (more, rest) :- ParseBody(s[2..]);
      Ok([Unescaped(s[1])] + more, rest)
  }

  function ParseString(s: string): (r: Parsed<string>)
    ensures r.Ok? ==> |r.rest| < |s|
  {
    if Peek(s) != '\"' then Fail else ParseBody(s[1..])
  }

  /** parse_value. A lone minus sign counts as the number 0. */
  function ParseValue(s: string): (r: Parsed<Json>)
    ensures r.Ok? ==> |r.rest| < |s|
    decreases |s|, 2
  {
    if StartsWith(s, "null") then Ok(Null, s[4..])
    else if StartsWith(s, "false") then Ok(False, s[5..])
    else if StartsWith(s, "true") then Ok(True, s[4..])
    else if Peek(s) == '\"' then
      var (v, rest) :- ParseString(s);
      Ok(String(v), rest)
    else if Peek(s) == '-' || IsDigit(Peek(s)) then
      var (v, rest) :- ParseNumber(s);
      Ok(Number(v), rest)
    else if Peek(s) == '[' then
      var (v, rest) :- ParseArray(s[1..]);
      Ok(Array(v), rest)
    else if Peek(s) == '{' then
      var (v, rest) :- ParseObject(s[1..]);
      Ok(Object(v), rest)
    else Fail
  }

  /** parse_array, after the bracket. */
  function ParseArray(s: string): (r: Parsed<seq<Json>>)
    ensures r.Ok? ==> |r.rest| < |s|
    decreases |s|, 3
  {
    var s1 := Skip(s);
    if Peek(s1) == ']' then Ok([], s1[1..])
    else
      var (v, rest) :- ParseValue(s1);
      ParseMoreItems([v], Skip(rest))
  }

  function ParseMoreItems(acc: seq<Json>, s: string): (r: Parsed<seq<Json>>)
    ensures r.Ok? ==> |r.rest| < |s|
    decreases |s|, 1
  {
    if Peek(s) == ',' then
      var (v, rest) :- ParseValue(Skip(s[1..]));
      ParseMoreItems(acc + [v], Skip(rest))
    else if Peek(s) == ']' then Ok(acc, s[1..])
    else Fail
  }

  /** A name, a colon and a value. */
  function ParseMember(s: string): (r: Parsed<Member>)
    ensures r.Ok? ==> |r.rest| < |s|
    decreases |s|, 2
  {
    var (name, s1) :- ParseString(s);
    var s2 := Skip(s1);
    if Peek(s2) != ':' then Fail
    else
      var (v, rest) :- ParseValue(Skip(s2[1..]));
      Ok(Member(name, v), rest)
  }

  /** parse_object, after the brace. */
  function ParseObject(s: string): (r: Parsed<seq<Member>>)
    ensures r.Ok? ==> |r.rest| < |s|
    decreases |s|, 3
  {
    var s1 := Skip(s);
    if Peek(s1) == '}' then Ok([], s1[1..])
    else
      var (m, rest) :- ParseMember(s1);
      ParseMoreMembers([m], Skip(rest))
  }

  function ParseMoreMembers(acc: seq<Member>, s: string): (r: Parsed<seq<Member>>)
    ensures r.Ok? ==> |r.rest| < |s|
    decreases |s|, 1
  {
    if Peek(s) == ',' then
      var (m, rest) :- ParseMember(Skip(s[1..]));
      ParseMoreMembers(acc + [m], Skip(rest))
    else if Peek(s) == '}' then Ok(acc, s[1..])
    else Fail
  }

  /** cJSON_Parse: leading space is skipped, what follows the value is not looked at. */
  function Parse(s: string): Parsed<Json> {
    ParseValue(Skip(s))
  }
}

/** String literals: what a \u escape stands for, that the output of parse_string fits the room its
    first loop counts, and the two loops themselves over a buffer. */
module JsonStrings {
  import opened JsonSpec

  // ---------- UTF-8 ----------

  datatype Decoded = Scalar(uc: nat, rest: string) | Malformed

  predicate IsScalar(uc: nat) {
    uc < 0xD800 || 0xE000 <= uc < 0x11_0000
  }

  /** A continuation byte. */
  predicate Tail(c: char) {
    0x80 <= c as nat <= 0xBF
  }

  /** A strict UTF-8 decoder after the syntax in section 4 of RFC 3629: no overlong forms, no
      surrogates, nothing above U+10FFFF. */
  function Utf8Decode(s: string): Decoded {
    if s == [] then Malformed
    else
      var b := s[0] as nat;
      if b < 0x80 then Scalar(b, s[1..])
      else if 0xC2 <= b <= 0xDF && |s| >= 2 && Tail(s[1]) then
        Scalar(b % 32 * 64 + s[1] as nat % 64, s[2..])
      else if 0xE0 <= b <= 0xEF && |s| >= 3 && Tail(s[1]) && Tail(s[2])
              && (b == 0xE0 ==> s[1] as nat >= 0xA0) && (b == 0xED ==> s[1] as nat <= 0x9F) then
        Scalar(b % 16 * 4096 + s[1] as nat % 64 * 64 + s[2] as nat % 64, s[3..])
      else if 0xF0 <= b <= 0xF4 && |s| >= 4 && Tail(s[1]) && Tail(s[2]) && Tail(s[3])
              && (b == 0xF0 ==> s[1] as nat >= 0x90) && (b == 0xF4 ==> s[1] as nat <= 0x8F) then
        Scalar(b % 8 * 262144 + s[1] as nat % 64 * 4096 + s[2] as nat % 64 * 64 + s[3] as nat % 64, s[4..])
      else Malformed
  }

  /** The bytes written for a number decode to it exactly when it is a scalar; a surrogate's do not
      decode at all. */
  lemma Utf8DecodesBack(uc: nat, rest: string)
    requires uc < 0x11_0000
    ensures IsScalar(uc) ==> Utf8Decode(Utf8(uc) + rest) == Scalar(uc, rest)
    ensures !IsScalar(uc) ==> Utf8Decode(Utf8(uc) + rest) == Malformed
  {
    var s := Utf8(uc) + rest;
    assert s[|Utf8(uc)|..] == rest;
    if uc < 0x80 {
    } else if uc < 0x800 {
      TwoBytes(uc);
    } else if uc < 0x1_0000 {
      ThreeBytes(uc);
    } else {
      FourBytes(uc);
    }
  }

  lemma TwoBytes(uc: nat)
    requires 0x80 <= uc < 0x800
    ensures (0xC0 + uc / 64) % 32 * 64 + (0x80 + uc % 64) % 64 == uc
  {
  }

  lemma ThreeBytes(uc: nat)
    requires 0x800 <= uc < 0x1_0000
    ensures (0xE0 + uc / 4096) % 16 * 4096 + (0x80 + uc / 64 % 64) % 64 * 64 + (0x80 + uc % 64) % 64 == uc
    ensures uc / 4096 == 0 ==> uc / 64 % 64 >= 0x20
    ensures uc / 4096 == 13 ==> (uc / 64 % 64 <= 0x1F <==> uc < 0xD800)
  {
    Sextets(uc);
    LowSextet(uc / 64 % 64);
    LowSextet(uc % 64);
    var a := uc / 4096;
    assert a < 16 && uc / 262144 == 0 && a % 64 == a;
    assert (0xE0 + a) % 16 == a;
  }

  lemma Sextets(uc: nat)
    ensures uc / 64 / 64 == uc / 4096 && uc / 4096 / 64 == uc / 262144
    ensures uc == uc / 262144 * 262144 + uc / 4096 % 64 * 4096 + uc / 64 % 64 * 64 + uc % 64
  {
    var q1 := uc / 64;
    var q2 := q1 / 64;
    assert uc == q1 * 64 + uc % 64 && q1 == q2 * 64 + q1 % 64 && q2 == q2 / 64 * 64 + q2 % 64;
  }

  lemma LowSextet(d: nat)
    requires d < 64
    ensures (0x80 + d) % 64 == d
  {
  }

  lemma FourBytes(uc: nat)
    requires 0x1_0000 <= uc < 0x11_0000
    ensures (0xF0 + uc / 262144) % 8 * 262144 + (0x80 + uc / 4096 % 64) % 64 * 4096 + (0x80 + uc / 64 % 64) % 64 * 64 + (0x80 + uc % 64) % 64 == uc
    ensures uc / 262144 == 0 ==> uc / 4096 % 64 >= 0x10
    ensures uc / 262144 == 4 ==> uc / 4096 % 64 <= 0x0F
    ensures uc / 262144 <= 4
  {
    Sextets(uc);
    LowSextet(uc / 4096 % 64);
    LowSextet(uc / 64 % 64);
    LowSextet(uc % 64);
    var a := uc / 262144;
    assert a <= 4;
    assert (0xF0 + a) % 8 == a;
  }

  // ---------- escapes ----------

  /** What counts as a hexadecimal digit, in either case, and what it is worth. */
  lemma DigitsAre(c: char, d: nat)
    requires d < 16
    ensures HexValue(c) >= 0 <==> '0' <= c <= '9' || 'A' <= c <= 'F' || 'a' <= c <= 'f'
    ensures HexValue(HexDigit(d)) == d && (d >= 10 ==> HexValue('A' + (d - 10) as char) == d)
  {
  }

  /** Four digits are read from the highest on. */
  lemma FourDigitsRead(v: nat)
    requires v < 0x1_0000
    ensures Hex4([HexDigit(v / 4096), HexDigit(v / 256 % 16), HexDigit(v / 16 % 16), HexDigit(v % 16)]) == v
  {
    hide HexDigit, HexValue;
    DigitsAre('0', v / 4096);
    DigitsAre('0', v / 256 % 16);
    DigitsAre('0', v / 16 % 16);
    DigitsAre('0', v % 16);
    FourDigits(v);
  }

  lemma FourDigits(v: nat)
    requires v < 0x1_0000
    ensures ((v / 4096 * 16 + v / 256 % 16) * 16 + v / 16 % 16) * 16 + v % 16 == v
  {
    var a, b := v / 16, v / 256;
    assert a / 16 == b && b / 16 == v / 4096;
  }

  /** The short escapes of section 7 of RFC 8259; any other character stands for itself. */
  lemma ShortEscapesAre(c: char)
    ensures Unescaped('b') as nat == 8 && Unescaped('f') as nat == 12
    ensures Unescaped('n') as nat == 10 && Unescaped('r') as nat == 13 && Unescaped('t') as nat == 9
    ensures c !in ['b', 'f', 'n', 'r', 't'] ==> Unescaped(c) == c
  {
  }

  /** Every nonzero scalar of the basic plane, written as one escape, becomes its UTF-8 form. */
  lemma BasicEscape(uc: nat, d: string, more: string)
    requires IsScalar(uc) && 0 < uc < 0x1_0000 && |d| == 4 && Hex4(d) == uc
    ensures UnescapeUnit(d + more) == Ok(Utf8(uc), more)
  {
    hide Utf8;
    HexAhead(d, more);
    assert (d + more)[4..] == more;
  }

  lemma HexAhead(d: string, more: string)
    requires |d| == 4
    ensures Hex4(d + more) == Hex4(d)
  {
  }

  /** Every scalar above the basic plane, written as a surrogate pair, becomes its UTF-8 form. */
  lemma PairEscape(uc: nat, d1: string, d2: string, more: string)
    requires 0x1_0000 <= uc < 0x11_0000 && |d1| == |d2| == 4
    requires Hex4(d1) == 0xD800 + (uc - 0x1_0000) / 0x400 && Hex4(d2) == 0xDC00 + (uc - 0x1_0000) % 0x400
    ensures UnescapeUnit(d1 + "\\u" + d2 + more) == Ok(Utf8(uc), more)
  {
    hide Utf8, Hex4;
    var s := d1 + "\\u" + d2 + more;
    assert s == d1 + ("\\u" + d2 + more);
    HexAhead(d1, "\\u" + d2 + more);
    var s1 := s[4..];
    assert s1 == "\\u" + d2 + more;
    assert s1[..2] == "\\u" && s1[2..] == d2 + more && s1[6..] == more;
    HexAhead(d2, more);
    var hi, lo := Hex4(d1), Hex4(d2);
    assert 0x1_0000 + hi % 0x400 * 0x400 + lo % 0x400 == uc;
  }

  // ---------- room ----------

  /** The first loop: characters up to the closing quote, an escape's backslash and next one as one. */
  function Count(s: string): nat
    decreases |s|
  {
    if s == [] || s[0] == '\"' then 0
    else if s[0] == '\\' then (if |s| == 1 then 1 else 1 + Count(s[2..]))
    else 1 + Count(s[1..])
  }

  lemma {:induction false} CountAcross(d: string, s: string)
    requires forall i :: 0 <= i < |d| ==> d[i] != '\"' && d[i] != '\\'
    ensures Count(d + s) == |d| + Count(s)
    decreases |d|
  {
    if d == [] {
      assert d + s == s;
    } else {
      CountAcross(d[1..], s);
      assert (d + s)[1..] == d[1..] + s;
    }
  }

  lemma CountUnit(s: string)
    requires UnescapeUnit(s).Ok?
    ensures |UnescapeUnit(s).value| + Count(UnescapeUnit(s).rest) <= 1 + Count(s)
  {
    hide Utf8;
    var s1 := s[4..];
    assert s == s[..4] + s1;
    CountAcross(s[..4], s1);
    if StartsWith(s1, "\\u") && Hex4(s1[2..]) >= 0 {
      var d := s1[2..6];
      assert s1[..2] == "\\u";
      assert s1[0] == '\\';
      assert s1[2..] == d + s1[6..];
      CountAcross(d, s1[6..]);
    }
  }

  /** What the second loop writes fits what the first loop counted. */
  lemma {:induction false} BodyFits(s: string)
    requires ParseBody(s).Ok?
    ensures |ParseBody(s).value| <= Count(s)
    decreases |s|
  {
    hide UnescapeUnit;
    if s != [] && s[0] != '\"' {
      if s[0] != '\\' {
        BodyFits(s[1..]);
      } else if s[1] == 'u' {
        CountUnit(s[2..]);
        BodyFits(UnescapeUnit(s[2..]).rest);
      } else {
        BodyFits(s[2..]);
      }
    }
  }

  /** The first loop does not step over the end of the text. */
  predicate CountSafe(s: string)
    decreases |s|
  {
    s == [] || s[0] == '\"' || (if s[0] == '\\' then |s| >= 2 && CountSafe(s[2..]) else CountSafe(s[1..]))
  }

  lemma {:induction false} SafeAcross(d: string, s: string)
    requires CountSafe(s) && forall i :: 0 <= i < |d| ==> d[i] != '\"' && d[i] != '\\'
    ensures CountSafe(d + s)
    decreases |d|
  {
    if d == [] {
      assert d + s == s;
    } else {
      SafeAcross(d[1..], s);
      assert (d + s)[1..] == d[1..] + s;
    }
  }

  lemma SafeUnit(s: string)
    requires UnescapeUnit(s).Ok? && CountSafe(UnescapeUnit(s).rest)
    ensures CountSafe(s)
  {
    hide Utf8;
    var s1 := s[4..];
    assert s == s[..4] + s1;
    if StartsWith(s1, "\\u") && 0xD800 <= Hex4(s) <= 0xDBFF {
      var d := s1[2..6];
      assert s1[..2] == "\\u";
      assert s1[0] == '\\';
      assert s1[2..] == d + s1[6..];
      SafeAcross(d, s1[6..]);
    }
    SafeAcross(s[..4], s1);
  }

  lemma {:induction false} BodySafe(s: string)
    requires ParseBody(s).Ok?
    ensures CountSafe(s)
    decreases |s|
  {
    hide UnescapeUnit;
    if s != [] && s[0] != '\"' {
      if s[0] != '\\' {
        BodySafe(s[1..]);
      } else if s[1] == 'u' {
        BodySafe(UnescapeUnit(s[2..]).rest);
        SafeUnit(s[2..]);
      } else {
        BodySafe(s[2..]);
      }
    }
  }

  // ---------- parse_string over a buffer ----------

  /** The first loop. */
  method CountBody(str: string) returns (len: nat)
    requires CountSafe(str)
    ensures len == Count(str)
  {
    len := 0;
    var ptr := 0;
    assert str[0..] == str;
    while ptr < |str| && str[ptr] != '\"'
      invariant ptr <= |str| && CountSafe(str[ptr..]) && len + Count(str[ptr..]) == Count(str)
      decreases |str| - ptr
    {
      assert str[ptr..][1..] == str[ptr + 1..];
      if str[ptr] == '\\' {
        assert str[ptr..][2..] == str[ptr + 2..];
      }
      len := len + 1;
      ptr := if str[ptr] == '\\' then ptr + 2 else ptr + 1;
    }
  }

  /** Write uc as UTF-8 from its last byte backwards. */
  method PutUtf8(out: array<char>, at: nat, uc0: nat) returns (end: nat)
    requires uc0 < 0x11_0000 && at + |Utf8(uc0)| <= out.Length
    modifies out
    ensures end == at + |Utf8(uc0)| && out[..end] == old(out[..at]) + Utf8(uc0)
  {
    var uc := uc0;
    var len := if uc < 0x80 then 1 else if uc < 0x800 then 2 else if uc < 0x1_0000 then 3 else 4;
    var ptr2 := at + len;
    if len == 4 { ptr2 := ptr2 - 1; out[ptr2] := (0x80 + uc % 64) as char; uc := uc / 64; }
    if len >= 3 { ptr2 := ptr2 - 1; out[ptr2] := (0x80 + uc % 64) as char; uc := uc / 64; }
    if len >= 2 { ptr2 := ptr2 - 1; out[ptr2] := (0x80 + uc % 64) as char; uc := uc / 64; }
    ptr2 := ptr2 - 1;
    Sextets(uc0);
    out[ptr2] := (FirstByteMark(len) + uc) as char;
    end := at + len;
  }

  function FirstByteMark(len: nat): nat {
    match len
    case 2 => 0xC0
    case 3 => 0xE0
    case 4 => 0xF0
    case _ => 0
  }

  /** The handling of a \u escape whose digits start at ptr: the bytes go to out at ptr2. */
  method TakeUnit(body: string, ptr: nat, out: array<char>, ptr2: nat) returns (next: nat, end: nat)
    requires ptr <= |body| && UnescapeUnit(body[ptr..]).Ok?
    requires ptr2 + |UnescapeUnit(body[ptr..]).value| <= out.Length
    modifies out
    ensures ptr < next <= |body| && body[next..] == UnescapeUnit(body[ptr..]).rest
    ensures end == ptr2 + |UnescapeUnit(body[ptr..]).value|
    ensures out[..end] == old(out[..ptr2]) + UnescapeUnit(body[ptr..]).value
  {
    hide Hex4, Utf8;
    end := ptr2;
    var uc := Hex4(body[ptr..]);
    next := ptr + 4;
    assert body[ptr..][4..] == body[next..];
    if (0xDC00 <= uc <= 0xDFFF) || uc == 0 {
      return;
    }
    if 0xD800 <= uc <= 0xDBFF {
      if !(next + 1 < |body| && body[next] == '\\' && body[next + 1] == 'u') {
        NotAnEscape(body[next..]);
        return;
      }
      assert body[next..][..2] == "\\u" && body[next..][2..] == body[next + 2..];
      var uc2 := Hex4(body[next + 2..]);
      assert body[next..][6..] == body[next + 6..];
      next := next + 6;
      if uc2 < 0xDC00 || uc2 > 0xDFFF {
        return;
      }
      uc := 0x1_0000 + uc % 0x400 * 0x400 + uc2 % 0x400;
    }
    end := PutUtf8(out, ptr2, uc);
  }

  lemma NotAnEscape(s: string)
    requires !(|s| > 1 && s[0] == '\\' && s[1] == 'u')
    ensures !StartsWith(s, "\\u")
  {
    if |s| > 1 { assert s[..2] == [s[0], s[1]]; }
  }

  /** One turn of the second loop, read off ParseBody. */
  lemma BodyStep(body: string, ptr: nat)
    requires ptr < |body| && body[ptr] != '\"' && ParseBody(body[ptr..]).Ok?
    ensures var r := ParseBody(body[ptr..]);
      if body[ptr] != '\\' then
        var m := ParseBody(body[ptr + 1..]);
        m.Ok? && r == Ok([body[ptr]] + m.value, m.rest)
      else if ptr + 1 == |body| then false
      else if body[ptr + 1] == 'u' then
        var u := UnescapeUnit(body[ptr + 2..]);
        u.Ok? && (var m := ParseBody(u.rest); m.Ok? && r == Ok(u.value + m.value, m.rest))
      else
        var m := ParseBody(body[ptr + 2..]);
        m.Ok? && r == Ok([Unescaped(body[ptr + 1])] + m.value, m.rest)
  {
    hide UnescapeUnit;
    assert body[ptr..][1..] == body[ptr + 1..];
    if |body| - ptr >= 2 { assert body[ptr..][2..] == body[ptr + 2..]; }
  }

  /** parse_string: count, allocate, fill. Every write falls inside the counted room. */
  method ParseStringLiteral(str: string) returns (r: Parsed<string>)
    requires !ParseString(str).Beyond?
    ensures r == ParseString(str)
  {
    if |str| == 0 || str[0] != '\"' {
      return Fail;
    }
    var body := str[1..];
    BodySafe(body);
    BodyFits(body);
    var len := CountBody(body);
    var out := new char[len + 1];
    var next, end := FillBody(body, out);
    out[end] := '\0';
    r := Ok(out[..end], body[next..]);
  }

  /** The second loop and the step over the closing quote. */
  method FillBody(body: string, out: array<char>) returns (next: nat, end: nat)
    requires ParseBody(body).Ok? && |ParseBody(body).value| < out.Length
    modifies out
    ensures next <= |body| && end < out.Length
    ensures ParseBody(body) == Ok(out[..end], body[next..])
  {
    hide UnescapeUnit, ParseBody, Unescaped;
    next, end := 0, 0;
    ghost var all := ParseBody(body);
    assert body[0..] == body;
    while next < |body| && body[next] != '\"'
      invariant next <= |body| && end < out.Length
      invariant ParseBody(body[next..]).Ok? 
      invariant all.value == out[..end] + ParseBody(body[next..]).value && all.rest == ParseBody(body[next..]).rest
      decreases |body| - next
    {
      BodyStep(body, next);
      ghost var before := out[..end];
      if body[next] != '\\' {
        out[end] := body[next];
        next, end := next + 1, end + 1;
        assert out[..end] == before + [body[next - 1]];
      } else if body[next + 1] == 'u' {
        next, end := TakeUnit(body, next + 2, out, end);
      } else {
        out[end] := Unescaped(body[next + 1]);
        next, end := next + 2, end + 1;
        assert out[..end] == before + [Unescaped(body[next - 1])];
      }
    }
    BodyEnd(body, next);
    assert out[..end] + [] == out[..end];
    if next < |body| {
      next := next + 1;
    }
  }

  lemma BodyEnd(body: string, next: nat)
    requires next == |body| || (next < |body| && body[next] == '\"')
    ensures ParseBody(body[next..]) == Ok("", body[if next < |body| then next + 1 else next..])
  {
    if next < |body| { assert body[next..][1..] == body[next + 1..]; }
  }
}

/** String literals as they are written: raw bytes, short escapes and \\u escapes in any order, and
    what a parsed literal holds. */
module JsonLiterals {
  import opened JsonSpec
  import opened JsonStrings
  import opened Sequences

  /** One piece of a literal. Four digits are kept as written, in either case. */
  datatype Piece =
    | Raw(c: char)
    | Short(c: char)
    | Basic(digits: string)
    | Pair(high: string, low: string)
    | Dropped(digits: string)
    | Lone(high: string)
    | Mismatch(high: string, other: string)

  /** Raw bytes are anything but quote and backslash; the digits of a pair name a high and a low
      surrogate; those dropped name zero or a low surrogate on its own, a high surrogate that no \\u
      escape follows, or one followed by an escape that is not a low surrogate. */
  predicate WellFormed(p: Piece) {
    match p
    case Raw(c) => c != '\"' && c != '\\'
    case Short(c) => c != 'u'
    case Basic(d) => |d| == 4 && 0 < Hex4(d) && IsScalar(Hex4(d))
    case Pair(d1, d2) => |d1| == |d2| == 4 && 0xD800 <= Hex4(d1) <= 0xDBFF && 0xDC00 <= Hex4(d2) <= 0xDFFF
    case Dropped(d) => |d| == 4 && (Hex4(d) == 0 || 0xDC00 <= Hex4(d) <= 0xDFFF)
    case Lone(d) => |d| == 4 && 0xD800 <= Hex4(d) <= 0xDBFF
    case Mismatch(d1, d2) => |d1| == |d2| == 4 && 0xD800 <= Hex4(d1) <= 0xDBFF && 0 <= Hex4(d2) && !(0xDC00 <= Hex4(d2) <= 0xDFFF)
  }

  /** Every piece is well formed, and no \\u escape follows a lone high surrogate. */
  predicate Literal(ps: seq<Piece>) {
    && (forall i :: 0 <= i < |ps| ==> WellFormed(ps[i]))
    && (forall i :: 0 <= i < |ps| - 1 ==> ps[i].Lone? ==> ps[i + 1].Raw? || ps[i + 1].Short?)
  }

  function Text(p: Piece): string {
    match p
    case Raw(c) => [c]
    case Short(c) => ['\\', c]
    case Basic(d) => "\\u" + d
    case Pair(d1, d2) => "\\u" + (d1 + "\\u" + d2)
    case Dropped(d) => "\\u" + d
    case Lone(d) => "\\u" + d
    case Mismatch(d1, d2) => "\\u" + (d1 + "\\u" + d2)
  }

  /** The scalar a surrogate pair stands for (section 7 of RFC 8259). */
  function PairScalar(high: nat, low: nat): (uc: nat)
    requires 0xD800 <= high <= 0xDBFF && 0xDC00 <= low <= 0xDFFF
    ensures 0x1_0000 <= uc < 0x11_0000
  {
    0x1_0000 + (high - 0xD800) * 0x400 + (low - 0xDC00)
  }

  function Meaning(p: Piece): string
    requires WellFormed(p)
  {
    match p
    case Raw(c) => [c]
    case Short(c) => [Unescaped(c)]
    case Basic(d) => Utf8(Hex4(d))
    case Pair(d1, d2) => Utf8(PairScalar(Hex4(d1), Hex4(d2)))
    case Dropped(d) => []
    case Lone(d) => []
    case Mismatch(d1, d2) => []
  }

  function Texts(ps: seq<Piece>): string {
    if ps == [] then [] else Text(ps[0]) + Texts(ps[1..])
  }

  function Meanings(ps: seq<Piece>): string
    requires forall i :: 0 <= i < |ps| ==> WellFormed(ps[i])
  {
    if ps == [] then [] else Meaning(ps[0]) + Meanings(ps[1..])
  }

  /** A piece in front of anything contributes its meaning. */
  lemma PieceRead(p: Piece, s: string)
    requires WellFormed(p) && ParseBody(s).Ok? && (p.Lone? ==> !StartsWith(s, "\\u"))
    ensures ParseBody(Text(p) + s) == Ok(Meaning(p) + ParseBody(s).value, ParseBody(s).rest)
  {
    hide UnescapeUnit, Utf8, Hex4;
    var text := Text(p) + s;
    match p
    case Raw(c) => assert text[1..] == s;
    case Short(c) => assert text[2..] == s;
    case Basic(d) =>
      BasicEscape(Hex4(d), d, s);
      UnitRead(d, s);
    case Pair(d1, d2) =>
      PairEscape(PairScalar(Hex4(d1), Hex4(d2)), d1, d2, s);
      UnitRead(d1 + "\\u" + d2, s);
    case Dropped(d) =>
      DroppedEscape(d, s);
      UnitRead(d, s);
    case Lone(d) =>
      LoneEscape(d, s);
      UnitRead(d, s);
    case Mismatch(d1, d2) =>
      MismatchEscape(d1, d2, s);
      UnitRead(d1 + "\\u" + d2, s);
  }

  /** A backslash and a u hand over to the handling of the digits. */
  lemma UnitRead(digits: string, s: string)
    requires UnescapeUnit(digits + s).Ok? && UnescapeUnit(digits + s).rest == s && ParseBody(s).Ok?
    ensures ParseBody("\\u" + digits + s) == Ok(UnescapeUnit(digits + s).value + ParseBody(s).value, ParseBody(s).rest)
  {
    hide UnescapeUnit;
    var text := "\\u" + digits + s;
    assert text[2..] == digits + s;
  }

  lemma DroppedEscape(d: string, s: string)
    requires WellFormed(Dropped(d))
    ensures UnescapeUnit(d + s) == Ok("", s)
  {
    hide Hex4, Utf8;
    HexAhead(d, s);
    assert (d + s)[4..] == s;
  }

  lemma LoneEscape(d: string, s: string)
    requires WellFormed(Lone(d)) && !StartsWith(s, "\\u")
    ensures UnescapeUnit(d + s) == Ok("", s)
  {
    hide Hex4, Utf8;
    HexAhead(d, s);
    assert (d + s)[4..] == s;
  }

  lemma MismatchEscape(d1: string, d2: string, s: string)
    requires WellFormed(Mismatch(d1, d2))
    ensures UnescapeUnit(d1 + "\\u" + d2 + s) == Ok("", s)
  {
    hide Hex4, Utf8;
    var text := d1 + "\\u" + d2 + s;
    assert text == d1 + ("\\u" + d2 + s);
    HexAhead(d1, "\\u" + d2 + s);
    var s1 := text[4..];
    assert s1 == "\\u" + d2 + s;
    assert s1[..2] == "\\u" && s1[2..] == d2 + s && s1[6..] == s;
    HexAhead(d2, s);
  }

  /** A literal body of any pieces reads as their meanings, in order, and leaves what follows the
      closing quote. */
  lemma {:induction false} BodyMeans(ps: seq<Piece>, rest: string)
    requires Literal(ps)
    ensures ParseBody(Texts(ps) + ("\"" + rest)) == Ok(Meanings(ps), rest)
    decreases |ps|
  {
    hide ParseBody, Text, Meaning, WellFormed;
    var close := "\"" + rest;
    if ps == [] {
      assert Texts(ps) + close == close;
      CloseRead(rest);
    } else {
      BodyMeans(ps[1..], rest);
      if ps[0].Lone? { NoUnitNext(ps[1..], rest); }
      PieceRead(ps[0], Texts(ps[1..]) + close);
      assert Texts(ps) + close == Text(ps[0]) + (Texts(ps[1..]) + close);
    }
  }

  lemma NoUnitNext(ps: seq<Piece>, rest: string)
    requires ps != [] ==> WellFormed(ps[0]) && (ps[0].Raw? || ps[0].Short?)
    ensures !StartsWith(Texts(ps) + ("\"" + rest), "\\u")
  {
    var s := Texts(ps) + ("\"" + rest);
    if ps == [] {
      assert s == "\"" + rest;
    } else {
      assert s == Text(ps[0]) + (Texts(ps[1..]) + ("\"" + rest));
    }
    assert s[0] == '\\' ==> s[1] != 'u';
    if |s| >= 2 { assert s[..2] == [s[0], s[1]]; }
  }

  lemma CloseRead(rest: string)
    ensures ParseBody("\"" + rest) == Ok("", rest)
  {
    assert ("\"" + rest)[1..] == rest;
  }

  // ---------- and nothing else is read ----------

  /** The piece a \\u escape at the start of a text is. */
  lemma UnitIsPiece(s: string) returns (p: Piece)
    requires UnescapeUnit(s).Ok?
    ensures WellFormed(p) && !p.Raw? && !p.Short?
    ensures "\\u" + s == Text(p) + UnescapeUnit(s).rest && UnescapeUnit(s).value == Meaning(p)
    ensures p.Lone? ==> !StartsWith(UnescapeUnit(s).rest, "\\u")
  {
    hide Utf8, Hex4;
    var d, s1 := s[..4], s[4..];
    assert s == d + s1;
    HexAhead(d, s1);
    var uc := Hex4(s);
    assert "\\u" + s == "\\u" + d + s1;
    if 0xDC00 <= uc <= 0xDFFF || uc == 0 {
      p := Dropped(d);
    } else if 0xD800 <= uc <= 0xDBFF {
      if StartsWith(s1, "\\u") {
        p := SecondIsPiece(d, s1);
      } else {
        p := Lone(d);
      }
    } else {
      p := Basic(d);
    }
  }

  lemma SecondIsPiece(d: string, s1: string) returns (p: Piece)
    requires |d| == 4 && 0xD800 <= Hex4(d) <= 0xDBFF && StartsWith(s1, "\\u") && Hex4(s1[2..]) >= 0
    ensures WellFormed(p) && (p.Pair? || p.Mismatch?)
    ensures "\\u" + d + s1 == Text(p) + s1[6..]
    ensures Meaning(p) ==
      if 0xDC00 <= Hex4(s1[2..]) <= 0xDFFF then Utf8(0x1_0000 + Hex4(d) % 0x400 * 0x400 + Hex4(s1[2..]) % 0x400) else ""
  {
    hide Utf8, Hex4;
    var d2, rest := s1[2..6], s1[6..];
    assert s1[2..] == d2 + rest;
    HexAhead(d2, rest);
    assert s1[..2] == "\\u" && s1 == "\\u" + d2 + rest;
    assert "\\u" + d + s1 == "\\u" + (d + "\\u" + d2) + rest;
    if 0xDC00 <= Hex4(d2) <= 0xDFFF {
      p := Pair(d, d2);
      assert PairScalar(Hex4(d), Hex4(d2)) == 0x1_0000 + Hex4(d) % 0x400 * 0x400 + Hex4(d2) % 0x400;
    } else {
      p := Mismatch(d, d2);
    }
  }

  /** Every body that is read at all is such a sequence of pieces, closed by a quote or by the end of
      the text. */
  lemma {:induction false} BodySplits(s: string) returns (ps: seq<Piece>, closed: bool)
    requires ParseBody(s).Ok?
    ensures Literal(ps) && ParseBody(s).value == Meanings(ps)
    ensures s == Texts(ps) + (if closed then "\"" + ParseBody(s).rest else "") && (!closed ==> ParseBody(s).rest == "")
    decreases |s|
  {
    hide UnescapeUnit, Hex4, Utf8;
    if s == [] {
      ps, closed := [], false;
    } else if s[0] == '\"' {
      ps, closed := [], true;
      assert s == [] + ("\"" + s[1..]);
    } else if s[0] != '\\' {
      ps, closed := BodySplits(s[1..]);
      ps := OnePieceMore(Raw(s[0]), ps, s[1..], closed);
    } else if s[1] != 'u' {
      ps, closed := BodySplits(s[2..]);
      assert s == [s[0], s[1]] + s[2..];
      ps := OnePieceMore(Short(s[1]), ps, s[2..], closed);
    } else {
      var p := UnitIsPiece(s[2..]);
      var s1 := UnescapeUnit(s[2..]).rest;
      assert s == "\\u" + s[2..];
      ps, closed := BodySplits(s1);
      ps := OnePieceMore(p, ps, s1, closed);
    }
  }

  lemma OnePieceMore(p: Piece, more: seq<Piece>, s1: string, closed: bool) returns (ps: seq<Piece>)
    requires WellFormed(p) && Literal(more) && ParseBody(s1).Ok? && (p.Lone? ==> !StartsWith(s1, "\\u"))
    requires s1 == Texts(more) + (if closed then "\"" + ParseBody(s1).rest else "")
    ensures ps == [p] + more && Literal(ps) && Meanings(ps) == Meaning(p) + Meanings(more)
    ensures Text(p) + s1 == Texts(ps) + (if closed then "\"" + ParseBody(s1).rest else "")
  {
    hide ParseBody, Meaning;
    ps := [p] + more;
    assert ps[1..] == more;
    var end := if closed then "\"" + ParseBody(s1).rest else "";
    Regroup(Text(p), Texts(more), end);
    if p.Lone? && more != [] { StartsUnit(more, end); }
  }

  lemma StartsUnit(more: seq<Piece>, end: string)
    requires more != []
    ensures !more[0].Raw? && !more[0].Short? ==> StartsWith(Texts(more) + end, "\\u")
  {
    var s := Texts(more) + end;
    if !more[0].Raw? && !more[0].Short? {
      assert Text(more[0])[..2] == "\\u";
      assert s[..2] == "\\u";
    }
  }

  /** So does parse_value on the whole literal. */
  lemma LiteralMeans(ps: seq<Piece>, rest: string)
    requires Literal(ps)
    ensures ParseValue("\"" + Texts(ps) + "\"" + rest) == Ok(String(Meanings(ps)), rest)
  {
    hide ParseBody, Texts, Meanings;
    var s := "\"" + Texts(ps) + "\"" + rest;
    assert s[1..] == Texts(ps) + ("\"" + rest);
    BodyMeans(ps, rest);
    assert s[0] == '\"';
    assert !StartsWith(s, "null") && !StartsWith(s, "false") && !StartsWith(s, "true");
  }

  /** The counting and the filling loop of parse_string on such a literal. */
  method ReadLiteral(str: string, ghost ps: seq<Piece>, ghost rest: string) returns (r: Parsed<string>)
    requires Literal(ps) && str == "\"" + Texts(ps) + "\"" + rest
    ensures r == Ok(Meanings(ps), rest)
  {
    hide ParseBody, Texts, Meanings, WellFormed;
    assert str[1..] == Texts(ps) + ("\"" + rest);
    BodyMeans(ps, rest);
    r := ParseStringLiteral(str);
  }
}

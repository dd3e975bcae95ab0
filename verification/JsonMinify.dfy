/** The minifier: what it makes of a text, how it does so in place, and that it turns the formatted
    printout of a tree into the unformatted one. */
module JsonMinify {
  import opened JsonSpec
  import JsonRoundTrip

  /** The text left, or Overrun when the scan would step past the terminating NUL: an unclosed
      string literal or block comment. */
  datatype Scan = Done(text: string) | Overrun

  predicate Space(c: char) {
    c == ' ' || c == '\t' || c == '\r' || c == '\n'
  }

  /** From a line comment to the line break, or the end. */
  function SkipLine(s: string): (r: string)
    ensures |r| <= |s|
    decreases |s|
  {
    if s == [] || s[0] == '\n' then s else SkipLine(s[1..])
  }

  /** How far the next star-slash is; the length of s when there is none. */
  function ToCommentEnd(s: string): (n: nat)
    ensures n <= |s| && (n < |s| ==> n + 2 <= |s|)
    decreases |s|
  {
    if s == [] then 0 else if StartsWith(s, "*/") then 0 else 1 + ToCommentEnd(s[1..])
  }

  /** A string literal after its opening quote: how many characters up to and with the closing one;
      0 when it is not closed. */
  function LiteralLength(s: string): (n: nat)
    ensures n <= |s|
    decreases |s|
  {
    if s == [] then 0
    else if s[0] == '\"' then 1
    else if s[0] == '\\' then
      if |s| == 1 || LiteralLength(s[2..]) == 0 then 0 else 2 + LiteralLength(s[2..])
    else if LiteralLength(s[1..]) == 0 then 0 else 1 + LiteralLength(s[1..])
  }

  function Prefix(p: string, r: Scan): Scan {
    if r.Done? then Done(p + r.text) else Overrun
  }

  function Minify(s: string): (r: Scan)
    ensures r.Done? ==> |r.text| <= |s|
    decreases |s|
  {
    if s == [] then Done([])
    else if Space(s[0]) then Minify(s[1..])
    else if StartsWith(s, "//") then Minify(SkipLine(s[2..]))
    else if StartsWith(s, "/*") then
      var n := 1 + ToCommentEnd(s[1..]);
      if n == |s| then Overrun else Minify(s[n + 2..])
    else if s[0] == '\"' then
      var n := LiteralLength(s[1..]);
      if n == 0 then Overrun else Prefix(s[..n + 1], Minify(s[n + 1..]))
    else Prefix(s[..1], Minify(s[1..]))
  }

  // ---------- in place ----------

  /** json holds the C string text, and tail behind its NUL. */
  ghost predicate Holds(json: array<char>, text: string, tail: string)
    reads json
  {
    json[..] == text + "\0" + tail && '\0' !in text
  }

  /** The buffer in mid-work: done is what has been written, and from read on it still holds the
      end of text. The write position is |done|, never past read. */
  ghost predicate Working(json: array<char>, done: string, text: string, tail: string, read: nat)
    reads json
  {
    && |done| <= read <= |text| && json.Length == |text| + 1 + |tail|
    && json[..|done|] == done
    && json[read..] == text[read..] + "\0" + tail
    && '\0' !in text
  }

  /** The character under a pointer into the unread part. */
  method At(json: array<char>, r: nat, ghost done: string, ghost text: string, ghost tail: string, ghost read: nat) returns (c: char)
    requires Working(json, done, text, tail, read) && read <= r <= |text|
    ensures c == (if r < |text| then text[r] else '\0') && (c == '\0' <==> r == |text|)
  {
    assert json[r] == json[read..][r - read];
    c := json[r];
    if r < |text| { assert text[r] in text; }
  }

  /** *into++ = *json++ */
  method CopyOne(json: array<char>, read: nat, into: nat, ghost done: string, ghost text: string, ghost tail: string)
    requires Working(json, done, text, tail, read) && into == |done| && read < |text|
    modifies json
    ensures Working(json, done + [text[read]], text, tail, read + 1)
  {
    assert json[read] == json[read..][0];
    json[into] := json[read];
    assert json[read + 1..] == old(json[read..])[1..];
  }

  lemma Advance(json: array<char>, done: string, text: string, tail: string, read: nat, r: nat)
    requires Working(json, done, text, tail, read) && read <= r <= |text|
    ensures Working(json, done, text, tail, r)
  {
    assert json[r..] == json[read..][r - read..];
  }

  method PassLine(json: array<char>, read: nat, ghost done: string, ghost text: string, ghost tail: string) returns (r: nat)
    requires Working(json, done, text, tail, read) && read <= |text|
    ensures read <= r <= |text| && text[r..] == SkipLine(text[read..])
  {
    hide Working;
    r := read;
    var c := At(json, r, done, text, tail, read);
    while c != '\0' && c != '\n'
      invariant read <= r <= |text| && SkipLine(text[r..]) == SkipLine(text[read..])
      invariant c == (if r < |text| then text[r] else '\0') && (c == '\0' <==> r == |text|)
      decreases |text| - r
    {
      assert text[r..][1..] == text[r + 1..];
      r := r + 1;
      c := At(json, r, done, text, tail, read);
    }
  }

  method PassComment(json: array<char>, read: nat, ghost done: string, ghost text: string, ghost tail: string) returns (r: nat)
    requires Working(json, done, text, tail, read) && read < |text| && ToCommentEnd(text[read..]) < |text| - read
    ensures r == read + ToCommentEnd(text[read..]) + 2 <= |text|
  {
    hide Working, ToCommentEnd;
    r := read;
    var c := At(json, r, done, text, tail, read);
    var d := At(json, r + 1, done, text, tail, read);
    while c != '\0' && !(c == '*' && d == '/')
      invariant read <= r < |text| && r + ToCommentEnd(text[r..]) == read + ToCommentEnd(text[read..])
      invariant c == text[r] != '\0' && d == (if r + 1 < |text| then text[r + 1] else '\0') && (d == '\0' <==> r + 1 == |text|)
      decreases |text| - r
    {
      CommentStep(text, r);
      r, c := r + 1, d;
      d := At(json, r + 1, done, text, tail, read);
    }
    CommentStep(text, r);
    r := r + 2;
  }

  /** One turn of the comment loop. */
  lemma CommentStep(text: string, r: nat)
    requires r < |text| && ToCommentEnd(text[r..]) < |text| - r
    ensures r + 1 < |text|
    ensures if text[r] == '*' && text[r + 1] == '/' then ToCommentEnd(text[r..]) == 0
            else ToCommentEnd(text[r..]) == 1 + ToCommentEnd(text[r + 1..]) && r + 2 < |text|
  {
    var s := text[r..];
    assert s[1..] == text[r + 1..];
    assert |s| >= 2 ==> s[..2] == [text[r], text[r + 1]];
  }

  /** Copy a literal down; the two spans may overlap, the source is read before it is overwritten. */
  method CopyLiteral(json: array<char>, read: nat, into: nat, ghost done: string, ghost text: string, ghost tail: string)
      returns (r: nat, w: nat)
    requires Working(json, done, text, tail, read) && into == |done| && read < |text| && text[read] == '\"'
    requires LiteralLength(text[read + 1..]) > 0
    modifies json
    ensures r == read + 1 + LiteralLength(text[read + 1..]) <= |text| && w == into + (r - read)
    ensures Working(json, done + text[read..r], text, tail, r)
  {
    hide Working, LiteralLength;
    r, w := read, into;
    ghost var now := done;
    CopyOne(json, r, w, now, text, tail);
    r, w, now := r + 1, w + 1, now + [text[r]];
    assert text[read..r] == [text[read]];
    var c := At(json, r, now, text, tail, r);
    while c != '\0' && c != '\"'
      invariant read < r < |text| && w == |now| == into + (r - read)
      invariant c == text[r] && now == done + text[read..r]
      invariant Working(json, now, text, tail, r)
      invariant LiteralLength(text[r..]) > 0 && r + LiteralLength(text[r..]) == read + 1 + LiteralLength(text[read + 1..])
      decreases |text| - r
    {
      LiteralStep(text, r);
      if c == '\\' {
        LongerBy(done, text, read, r);
        CopyOne(json, r, w, now, text, tail);
        r, w, now := r + 1, w + 1, done + text[read..r + 1];
      }
      LongerBy(done, text, read, r);
      CopyOne(json, r, w, now, text, tail);
      r, w, now := r + 1, w + 1, done + text[read..r + 1];
      c := At(json, r, now, text, tail, r);
    }
    LiteralEnd(text, r);
    LongerBy(done, text, read, r);
    CopyOne(json, r, w, now, text, tail);
    r, w := r + 1, w + 1;
  }

  lemma LongerBy(done: string, text: string, a: nat, b: nat)
    requires a <= b < |text|
    ensures done + text[a..b] + [text[b]] == done + text[a..b + 1]
  {
    Longer(text, a, b);
  }

  lemma Longer(text: string, a: nat, b: nat)
    requires a <= b < |text|
    ensures text[a..b] + [text[b]] == text[a..b + 1]
  {
  }

  /** One turn of the literal loop. */
  lemma LiteralStep(text: string, r: nat)
    requires r < |text| && LiteralLength(text[r..]) > 0 && text[r] != '\"'
    ensures var k := if text[r] == '\\' then 2 else 1;
      r + k < |text| && LiteralLength(text[r + k..]) > 0 && LiteralLength(text[r..]) == k + LiteralLength(text[r + k..])
  {
    assert text[r..][1..] == text[r + 1..];
    if r + 2 <= |text| { assert text[r..][2..] == text[r + 2..]; }
  }

  lemma LiteralEnd(text: string, r: nat)
    requires r < |text| && text[r] == '\"'
    ensures LiteralLength(text[r..]) == 1
  {
  }

  /** What the minifier does at the start of a text s. */
  lemma MinifyHead(s: string)
    requires s != [] && Minify(s).Done?
    ensures var c := s[0];
      var d := if |s| > 1 then s[1] else '\0';
      var m := Minify(s).text;
      if Space(c) then Minify(s[1..]) == Done(m)
      else if c == '/' && d == '/' then Minify(SkipLine(s)) == Done(m)
      else if c == '/' && d == '*' then
        var n := ToCommentEnd(s);
        n + 2 <= |s| && Minify(s[n + 2..]) == Done(m)
      else if c == '\"' then
        var n := 1 + LiteralLength(s[1..]);
        n > 1 && Minify(s[n..]).Done? && m == s[..n] + Minify(s[n..]).text
      else Minify(s[1..]).Done? && m == [c] + Minify(s[1..]).text
  {
    hide Minify, LiteralLength, SkipLine, ToCommentEnd, StartsWith;
    TwoChars(s);
    if Space(s[0]) {
      HeadSpace(s);
    } else if StartsWith(s, "//") {
      HeadLine(s);
    } else if StartsWith(s, "/*") {
      HeadComment(s);
    } else if s[0] == '\"' {
      HeadLiteral(s);
    } else {
      HeadOther(s);
    }
  }

  lemma HeadSpace(s: string)
    requires s != [] && Space(s[0])
    ensures Minify(s) == Minify(s[1..])
  {
  }

  lemma HeadLine(s: string)
    requires s != [] && StartsWith(s, "//")
    ensures Minify(s) == Minify(SkipLine(s))
  {
    hide SkipLine, ToCommentEnd, LiteralLength, StartsWith;
    TwoChars(s);
    SkipLineFromStart(s);
  }

  lemma CommentAtHead(s: string)
    requires s != [] && StartsWith(s, "/*")
    ensures var n := 1 + ToCommentEnd(s[1..]);
      Minify(s) == if n == |s| then Overrun else Minify(s[n + 2..])
  {
    hide SkipLine, ToCommentEnd, LiteralLength, StartsWith;
    TwoChars(s);
  }

  lemma HeadComment(s: string)
    requires s != [] && StartsWith(s, "/*") && Minify(s).Done?
    ensures var n := ToCommentEnd(s); n + 2 <= |s| && Minify(s) == Minify(s[n + 2..])
  {
    hide Minify, ToCommentEnd, StartsWith;
    CommentAtHead(s);
    CommentFromStart(s);
  }

  lemma LiteralAtHead(s: string)
    requires s != [] && s[0] == '\"'
    ensures var n := LiteralLength(s[1..]);
      Minify(s) == if n == 0 then Overrun else Prefix(s[..n + 1], Minify(s[n + 1..]))
  {
    hide SkipLine, ToCommentEnd, LiteralLength, StartsWith;
    TwoChars(s);
  }

  lemma HeadLiteral(s: string)
    requires s != [] && s[0] == '\"' && Minify(s).Done?
    ensures var n := 1 + LiteralLength(s[1..]);
      n > 1 && Minify(s[n..]).Done? && Minify(s).text == s[..n] + Minify(s[n..]).text
  {
    hide Minify, LiteralLength;
    LiteralAtHead(s);
  }

  lemma HeadOther(s: string)
    requires s != [] && !Space(s[0]) && s[0] != '\"' && !StartsWith(s, "//") && !StartsWith(s, "/*") && Minify(s).Done?
    ensures Minify(s[1..]).Done? && Minify(s).text == [s[0]] + Minify(s[1..]).text
  {
    hide SkipLine, ToCommentEnd, LiteralLength, StartsWith;
    assert s[..1] == [s[0]];
  }

  lemma TwoChars(s: string)
    requires s != []
    ensures StartsWith(s, "//") <==> s[0] == '/' && |s| > 1 && s[1] == '/'
    ensures StartsWith(s, "/*") <==> s[0] == '/' && |s| > 1 && s[1] == '*'
  {
    if |s| > 1 { assert s[..2] == [s[0], s[1]]; }
  }

  /** The same at a place inside a text. */
  lemma MinifyStep(text: string, read: nat)
    requires read < |text| && Minify(text[read..]).Done?
    ensures var c := text[read];
      var d := if read + 1 < |text| then text[read + 1] else '\0';
      var m := Minify(text[read..]).text;
      if Space(c) then Minify(text[read + 1..]) == Done(m)
      else if c == '/' && d == '/' then Minify(SkipLine(text[read..])) == Done(m)
      else if c == '/' && d == '*' then
        var n := ToCommentEnd(text[read..]);
        n + 2 <= |text| - read && Minify(text[read + n + 2..]) == Done(m)
      else if c == '\"' then
        var n := 1 + LiteralLength(text[read + 1..]);
        n > 1 && Minify(text[read + n..]).Done? && m == text[read..read + n] + Minify(text[read + n..]).text
      else Minify(text[read + 1..]).Done? && m == [c] + Minify(text[read + 1..]).text
  {
    hide Space, Minify, SkipLine, ToCommentEnd, LiteralLength;
    var s := text[read..];
    MinifyHead(s);
    assert s[1..] == text[read + 1..];
    forall n | 0 <= n <= |s| ensures s[n..] == text[read + n..] && s[..n] == text[read..read + n] {
    }
  }

  /** json holds a C string; what Minify leaves of it replaces it, ended by a NUL. The write
      position never passes the read position, and nothing behind the old NUL changes. */
  method MinifyInPlace(json: array<char>, ghost text: string, ghost tail: string)
    requires Holds(json, text, tail) && Minify(text).Done?
    modifies json
    ensures var m := Minify(text).text;
      && |m| <= |text| && json[..|m| + 1] == m + "\0"
      && json[|text| + 1..] == tail
  {
    hide Space, Minify, SkipLine, ToCommentEnd, LiteralLength;
    ghost var done := "";
    var read: nat, into: nat := 0, 0;
    assert text[0..] == text;
    var c := At(json, read, done, text, tail, read);
    while c != '\0'
      invariant into == |done| <= read <= |text| && Working(json, done, text, tail, read)
      invariant c == (if read < |text| then text[read] else '\0') && (c == '\0' <==> read == |text|)
      invariant Minify(text[read..]).Done? && Minify(text).text == done + Minify(text[read..]).text
      decreases |text| - read
    {
      MinifyStep(text, read);
      read, into, done := MinifyOne(json, read, into, done, text, tail);
      c := At(json, read, done, text, tail, read);
    }
    assert text[|text|..] == [] && Minify([]) == Done([]) by { NothingLeft(); }
    assert json[|text| + 1..] == json[read..][1..];
    json[into] := '\0';
  }

  lemma NothingLeft()
    ensures Minify([]) == Done([])
  {
  }

  /** One turn of the minifier's loop. */
  method MinifyOne(json: array<char>, read: nat, into: nat, ghost done: string, ghost text: string, ghost tail: string)
      returns (r: nat, w: nat, ghost now: string)
    requires Working(json, done, text, tail, read) && into == |done| && read < |text| && Minify(text[read..]).Done?
    modifies json
    ensures read < r <= |text| && w == |now| && Working(json, now, text, tail, r)
    ensures Minify(text[r..]).Done? && done + Minify(text[read..]).text == now + Minify(text[r..]).text
  {
    hide Working, Minify, SkipLine, ToCommentEnd, LiteralLength;
    MinifyStep(text, read);
    r, w, now := read, into, done;
    var c := At(json, read, done, text, tail, read);
    var d := At(json, read + 1, done, text, tail, read);
    if Space(c) {
      r := read + 1;
      Advance(json, done, text, tail, read, r);
    } else if c == '/' && d == '/' {
      r := PassLine(json, read, done, text, tail);
      SkipLineMoves(text[read..]);
      Advance(json, done, text, tail, read, r);
    } else if c == '/' && d == '*' {
      r := PassComment(json, read, done, text, tail);
      Advance(json, done, text, tail, read, r);
    } else if c == '\"' {
      r, w := CopyLiteral(json, read, into, done, text, tail);
      now := done + text[read..r];
      assert done + (text[read..r] + Minify(text[r..]).text) == now + Minify(text[r..]).text;
    } else {
      CopyOne(json, read, into, done, text, tail);
      r, w, now := read + 1, into + 1, done + [c];
      assert done + ([c] + Minify(text[r..]).text) == now + Minify(text[r..]).text;
    }
  }

  lemma SkipLineMoves(s: string)
    requires s != [] && s[0] == '/'
    ensures |SkipLine(s)| < |s|
  {
  }

  lemma SkipLineFromStart(s: string)
    requires StartsWith(s, "//")
    ensures SkipLine(s) == SkipLine(s[2..])
  {
    assert s[..2][0] == '/' && s[..2][1] == '/';
    assert s[1..][1..] == s[2..];
  }

  lemma CommentFromStart(s: string)
    requires StartsWith(s, "/*")
    ensures ToCommentEnd(s) == 1 + ToCommentEnd(s[1..])
  {
    assert s[..2][0] == '/';
  }

  // ---------- minifying a printout ----------

  predicate Ordinary(c: char) {
    !Space(c) && c != '/' && c != '\"'
  }

  lemma {:induction false} CopyOrdinary(a: string, rest: string)
    requires (forall i :: 0 <= i < |a| ==> Ordinary(a[i])) && Minify(rest).Done?
    ensures Minify(a + rest) == Done(a + Minify(rest).text)
    decreases |a|
  {
    hide Minify;
    if a == [] {
      assert a + rest == rest && a + Minify(rest).text == Minify(rest).text;
    } else {
      CopyOrdinary(a[1..], rest);
      CopyChar(a[0], a[1..] + rest);
      assert [a[0]] + (a[1..] + rest) == a + rest;
      assert [a[0]] + (a[1..] + Minify(rest).text) == a + Minify(rest).text;
    }
  }

  lemma CopyChar(c: char, rest: string)
    requires Ordinary(c) && Minify(rest).Done?
    ensures Minify([c] + rest) == Done([c] + Minify(rest).text)
  {
    hide LiteralLength, SkipLine, ToCommentEnd, StartsWith;
    var s := [c] + rest;
    TwoChars(s);
    assert s[1..] == rest && s[..1] == [c];
  }

  lemma PassSpace(c: char, rest: string)
    requires Space(c)
    ensures Minify([c] + rest) == Minify(rest)
  {
    assert ([c] + rest)[1..] == rest;
  }

  lemma {:induction false} PassTabs(n: int, rest: string)
    ensures Minify(Tabs(n) + rest) == Minify(rest)
    decreases if n > 0 then n else 0
  {
    if n <= 0 {
      assert Tabs(n) + rest == rest;
    } else {
      assert Tabs(n) + rest == Tabs(n - 1) + ("\t" + rest);
      PassTabs(n - 1, "\t" + rest);
      PassSpace('\t', rest);
    }
  }

  lemma PassGap(fmt: bool, c: char, rest: string)
    requires Space(c)
    ensures Minify(If(fmt, [c]) + rest) == Minify(rest)
  {
    if fmt { PassSpace(c, rest); } else { assert [] + rest == rest; }
  }

  lemma PassIndent(fmt: bool, n: int, rest: string)
    ensures Minify(If(fmt, Tabs(n)) + rest) == Minify(rest)
  {
    if fmt { PassTabs(n, rest); } else { assert [] + rest == rest; }
  }

  lemma {:induction false} PlainLiteral(a: string, s: string)
    requires LiteralLength(s) > 0 && forall i :: 0 <= i < |a| ==> a[i] != '\"' && a[i] != '\\'
    ensures LiteralLength(a + s) == |a| + LiteralLength(s)
    decreases |a|
  {
    if a == [] {
      assert a + s == s;
    } else {
      PlainLiteral(a[1..], s);
      assert (a + s)[1..] == a[1..] + s;
    }
  }

  lemma EscapeCharLiteral(c: char, s: string)
    requires LiteralLength(s) > 0
    ensures LiteralLength(EscapeChar(c) + s) == |EscapeChar(c)| + LiteralLength(s)
  {
    hide EscapeChar, Plain;
    EscapeShape(c);
    var e := EscapeChar(c);
    if Plain(c) {
      PlainLiteral(e, s);
    } else {
      PlainLiteral(e[2..], s);
      assert (e + s)[2..] == e[2..] + s;
    }
  }

  lemma EscapeShape(c: char)
    ensures Plain(c) ==> EscapeChar(c) == [c] && c != '\"' && c != '\\'
    ensures !Plain(c) ==> |EscapeChar(c)| >= 2 && EscapeChar(c)[0] == '\\'
    ensures !Plain(c) ==> forall i :: 2 <= i < |EscapeChar(c)| ==> EscapeChar(c)[i] != '\"' && EscapeChar(c)[i] != '\\'
  {
  }

  lemma {:induction false} EscapeLiteral(str: string, rest: string)
    ensures LiteralLength(Escape(str) + ("\"" + rest)) == |Escape(str)| + 1
    decreases |str|
  {
    hide EscapeChar;
    var close := "\"" + rest;
    if str == [] {
      assert Escape(str) + close == close;
      assert LiteralLength(close) == 1;
    } else {
      EscapeLiteral(str[1..], rest);
      EscapeCharLiteral(str[0], Escape(str[1..]) + close);
      assert Escape(str) + close == EscapeChar(str[0]) + (Escape(str[1..]) + close);
    }
  }

  lemma MinifyString(str: string, rest: string)
    requires Minify(rest).Done?
    ensures Minify(PrintString(str) + rest) == Done(PrintString(str) + Minify(rest).text)
  {
    hide Minify, Escape, LiteralLength;
    var s := PrintString(str) + rest;
    EscapeLiteral(str, rest);
    assert s[1..] == Escape(str) + ("\"" + rest);
    LiteralAtHead(s);
    assert s[..|PrintString(str)|] == PrintString(str) && s[|PrintString(str)|..] == rest;
  }

  lemma MinifyNumber(n: int, rest: string)
    requires Minify(rest).Done?
    ensures Minify(PrintNumber(n) + rest) == Done(PrintNumber(n) + Minify(rest).text)
  {
    CopyOrdinary(PrintNumber(n), rest);
  }

  /** Minifying the text of a value, formatted or not, leaves its unformatted text. */
  lemma {:induction false} MinifyValue(t: Json, depth: nat, fmt: bool, rest: string)
    requires Minify(rest).Done?
    ensures Minify(Print(t, depth, fmt) + rest) == Done(Print(t, depth, false) + Minify(rest).text)
    decreases t, 1
  {
    hide Minify;
    match t
    case Null => CopyOrdinary("null", rest);
    case False => CopyOrdinary("false", rest);
    case True => CopyOrdinary("true", rest);
    case Number(n) => MinifyNumber(n, rest);
    case String(str) => MinifyString(str, rest);
    case Array(items) => MinifyArray(t, items, depth, fmt, rest);
    case Object(ms) => MinifyObject(t, ms, depth, fmt, rest);
  }

  lemma MinifyArray(t: Json, items: seq<Json>, depth: nat, fmt: bool, rest: string)
    requires t == Array(items) && Minify(rest).Done?
    ensures Minify(Print(t, depth, fmt) + rest) == Done(Print(t, depth, false) + Minify(rest).text)
    decreases t, 0
  {
    hide Minify, PrintItems, Print;
    ArrayText(items, depth, fmt, rest);
    ArrayText(items, depth, false, Minify(rest).text);
    if items == [] {
      CopyOrdinary("[]", rest);
    } else {
      CopyOrdinary("]", rest);
      MinifyItems(items, depth + 1, fmt, "]" + rest);
      CopyOrdinary("[", PrintItems(items, depth + 1, fmt) + ("]" + rest));
    }
  }

  lemma ArrayText(items: seq<Json>, depth: nat, fmt: bool, rest: string)
    ensures Print(Array(items), depth, fmt) + rest ==
      if items == [] then "[]" + rest else "[" + (PrintItems(items, depth + 1, fmt) + ("]" + rest))
  {
    hide PrintItems;
  }

  lemma {:induction false} MinifyItems(items: seq<Json>, depth: nat, fmt: bool, close: string)
    requires items != [] && Minify(close).Done?
    ensures Minify(PrintItems(items, depth, fmt) + close) == Done(PrintItems(items, depth, false) + Minify(close).text)
    decreases items
  {
    hide Minify, Print, PrintItems;
    var more := JsonRoundTrip.MoreItems(items, depth, fmt) + close;
    JsonRoundTrip.ItemsSplit(items, depth, fmt, close);
    JsonRoundTrip.ItemsSplit(items, depth, false, Minify(close).text);
    if |items| == 1 {
      assert more == close;
      assert JsonRoundTrip.MoreItems(items, depth, false) + Minify(close).text == Minify(close).text;
    } else {
      var s1 := PrintItems(items[1..], depth, fmt) + close;
      MinifyItems(items[1..], depth, fmt, close);
      PassGap(fmt, ' ', s1);
      CopyOrdinary(",", If(fmt, " ") + s1);
      var less := PrintItems(items[1..], depth, false) + Minify(close).text;
      assert [] + less == less;
    }
    MinifyValue(items[0], depth, fmt, more);
  }

  lemma MinifyObject(t: Json, ms: seq<Member>, depth: nat, fmt: bool, rest: string)
    requires t == Object(ms) && Minify(rest).Done?
    ensures Minify(Print(t, depth, fmt) + rest) == Done(Print(t, depth, false) + Minify(rest).text)
    decreases t, 0
  {
    hide Minify, PrintMembers, Print, Tabs;
    CopyOrdinary("}", rest);
    PlainObjectText(ms, depth, Minify(rest).text);
    var close := "}" + rest;
    if ms == [] {
      JsonRoundTrip.EmptyObjectText(depth, fmt, rest);
      BreakBefore(fmt, If(fmt, Tabs(depth - 1)) + close);
      PassIndent(fmt, depth - 1, close);
    } else {
      JsonRoundTrip.ObjectText(ms, depth, fmt, rest);
      BreakBefore(fmt, PrintMembers(ms, depth + 1, fmt) + (If(fmt, Tabs(depth)) + close));
      PassIndent(fmt, depth, close);
      MinifyMembers(ms, depth + 1, fmt, If(fmt, Tabs(depth)) + close);
    }
  }

  /** An opening brace, with or without a line break after it. */
  lemma BreakBefore(fmt: bool, s: string)
    ensures Minify(s).Done? ==> Minify("{" + (If(fmt, "\n") + s)) == Done("{" + Minify(s).text)
  {
    hide Minify;
    PassGap(fmt, '\n', s);
    if Minify(s).Done? {
      CopyOrdinary("{", If(fmt, "\n") + s);
    }
  }

  /** An unformatted object, with no gaps. */
  lemma PlainObjectText(ms: seq<Member>, depth: nat, rest: string)
    ensures Print(Object(ms), depth, false) + rest == "{" + ((if ms == [] then [] else PrintMembers(ms, depth + 1, false)) + ("}" + rest))
  {
    hide PrintMembers, Tabs, Print;
    var close := "}" + rest;
    assert [] + close == close;
    if ms == [] {
      JsonRoundTrip.EmptyObjectText(depth, false, rest);
    } else {
      JsonRoundTrip.ObjectText(ms, depth, false, rest);
      var body := PrintMembers(ms, depth + 1, false) + close;
      assert [] + body == body;
    }
  }

  lemma {:induction false} MinifyMembers(ms: seq<Member>, depth: nat, fmt: bool, close: string)
    requires Minify(close).Done?
    ensures Minify(PrintMembers(ms, depth, fmt) + close) == Done(PrintMembers(ms, depth, false) + Minify(close).text)
    decreases ms
  {
    hide Minify, Print, PrintString, Tabs;
    if ms == [] {
      assert PrintMembers(ms, depth, fmt) + close == close;
      assert PrintMembers(ms, depth, false) + Minify(close).text == Minify(close).text;
    } else {
      MinifyMembers(ms[1..], depth, fmt, close);
      MinifyMoreMembers(ms, depth, fmt, close);
      var more := JsonRoundTrip.MoreMembers(ms, depth, fmt) + close;
      MinifyValue(ms[0].value, depth, fmt, more);
      MinifyFirstMember(ms, depth, fmt, close);
    }
  }

  lemma MinifyMoreMembers(ms: seq<Member>, depth: nat, fmt: bool, close: string)
    requires ms != [] && Minify(close).Done?
    requires Minify(PrintMembers(ms[1..], depth, fmt) + close) == Done(PrintMembers(ms[1..], depth, false) + Minify(close).text)
    ensures Minify(JsonRoundTrip.MoreMembers(ms, depth, fmt) + close)
      == Done(JsonRoundTrip.MoreMembers(ms, depth, false) + Minify(close).text)
  {
    hide Minify, PrintMembers;
    JsonRoundTrip.MembersSplit(ms, depth, fmt, close);
    JsonRoundTrip.MembersSplit(ms, depth, false, Minify(close).text);
    var s1 := PrintMembers(ms[1..], depth, fmt) + close;
    var less := PrintMembers(ms[1..], depth, false) + Minify(close).text;
    assert [] + less == less;
    if |ms| == 1 {
      PassGap(fmt, '\n', close);
      assert [] + Minify(close).text == Minify(close).text;
    } else {
      PassGap(fmt, '\n', s1);
      CopyOrdinary(",", If(fmt, "\n") + s1);
    }
  }

  lemma MinifyFirstMember(ms: seq<Member>, depth: nat, fmt: bool, close: string)
    requires ms != [] && Minify(close).Done?
    requires var more := JsonRoundTrip.MoreMembers(ms, depth, fmt) + close;
      Minify(Print(ms[0].value, depth, fmt) + more)
        == Done(Print(ms[0].value, depth, false) + (JsonRoundTrip.MoreMembers(ms, depth, false) + Minify(close).text))
    ensures Minify(PrintMembers(ms, depth, fmt) + close) == Done(PrintMembers(ms, depth, false) + Minify(close).text)
  {
    hide Minify, Print, PrintMembers, PrintString, Tabs, JsonRoundTrip.MoreMembers;
    var text := Print(ms[0].value, depth, fmt) + (JsonRoundTrip.MoreMembers(ms, depth, fmt) + close);
    var less := Print(ms[0].value, depth, false) + (JsonRoundTrip.MoreMembers(ms, depth, false) + Minify(close).text);
    JsonRoundTrip.MembersSplit(ms, depth, fmt, close);
    JsonRoundTrip.MembersSplit(ms, depth, false, Minify(close).text);
    assert [] + less == less;
    PassGap(fmt, '\t', text);
    var sep := If(fmt, "\t") + text;
    CopyOrdinary(":", sep);
    MinifyString(ms[0].name, ":" + sep);
    var named := PrintString(ms[0].name) + (":" + sep);
    PassIndent(fmt, depth, named);
    assert [] + (PrintString(ms[0].name) + (":" + less)) == PrintString(ms[0].name) + (":" + less);
  }

  /** cJSON_Minify of cJSON_Print is cJSON_PrintUnformatted, and leaves the latter as it is. */
  lemma MinifyMapsPrinters(t: Json, fmt: bool)
    ensures Minify(Print(t, 0, fmt)) == Done(Print(t, 0, false))
  {
    NothingLeft();
    MinifyValue(t, 0, fmt, []);
    assert Print(t, 0, fmt) + [] == Print(t, 0, fmt);
    assert Print(t, 0, false) + [] == Print(t, 0, false);
  }

  /** So minifying a printout does not change what it parses to. */
  lemma MinifyKeepsMeaning(t: Json, fmt: bool)
    requires Representable(t)
    ensures Minify(Print(t, 0, fmt)).Done? && Parse(Minify(Print(t, 0, fmt)).text) == Ok(t, [])
  {
    MinifyMapsPrinters(t, fmt);
    JsonRoundTrip.ParseUndoesPrint(t, false);
  }

  /** cJSON_Minify on the buffer cJSON_Print returned, whatever lies behind it: the buffer then holds
      what cJSON_PrintUnformatted would return, which parses to the same tree. */
  method MinifyPrinted(json: array<char>, ghost t: Json, ghost fmt: bool, ghost tail: string)
    requires Representable(t) && json[..] == Print(t, 0, fmt) + "\0" + tail
    modifies json
    ensures var m := Print(t, 0, false);
      && |m| < json.Length && json[..|m| + 1] == m + "\0" && '\0' !in m
      && |json[..]| == |Print(t, 0, fmt)| + 1 + |tail| && json[|Print(t, 0, fmt)| + 1..] == tail
      && Parse(json[..|m|]) == Ok(t, [])
  {
    hide Print, Minify, Parse, Representable;
    JsonRoundTrip.PrintHasNoNul(t, 0, fmt);
    JsonRoundTrip.PrintHasNoNul(t, 0, false);
    MinifyMapsPrinters(t, fmt);
    JsonRoundTrip.ParseUndoesPrint(t, false);
    ghost var m := Print(t, 0, false);
    MinifyInPlace(json, Print(t, 0, fmt), tail);
    assert json[..|m|] == json[..|m| + 1][..|m|];
  }

  // ---------- scans that overrun ----------

  /** A quote that nothing closes, and a comment that nothing closes. */
  lemma UnclosedOverruns()
    ensures Minify("[1, \"a]") == Overrun && Minify("[1] /* a") == Overrun
  {
    hide Minify;
    var q, c := "\"a]", "/* a";
    assert q[1..] == "a]" && q[1..][1..] == "]" && q[1..][1..][1..] == [];
    assert LiteralLength("]") == 0;
    LiteralAtHead(q);
    assert c[..2] == "/*" && c[1..] == "* a";
    NoStarSlash();
    CommentAtHead(c);
    PassSpace(' ', q);
    OrdinaryOverruns("[1,", " " + q);
    assert "[1," + (" " + q) == "[1, \"a]";
    PassSpace(' ', c);
    OrdinaryOverruns("[1]", " " + c);
    assert "[1]" + (" " + c) == "[1] /* a";
  }

  lemma NoStarSlash()
    ensures ToCommentEnd("* a") == 3
  {
    var s := "* a";
    assert s[1..] == " a" && s[1..][1..] == "a" && s[1..][1..][1..] == [];
    assert s[..2] == "* " && s[1..][..2] == " a";
    assert ToCommentEnd("a") == 1;
    assert ToCommentEnd(" a") == 2;
  }

  lemma {:induction false} OrdinaryOverruns(a: string, rest: string)
    requires (forall i :: 0 <= i < |a| ==> Ordinary(a[i])) && Minify(rest) == Overrun
    ensures Minify(a + rest) == Overrun
    decreases |a|
  {
    hide LiteralLength, SkipLine, ToCommentEnd, StartsWith;
    if a == [] {
      assert a + rest == rest;
    } else {
      OrdinaryOverruns(a[1..], rest);
      TwoChars(a + rest);
      assert (a + rest)[1..] == a[1..] + rest;
    }
  }
}

/** Parsing undoes printing, for both printers and every representable tree. */
module JsonRoundTrip {
  import opened JsonSpec
  import opened Sequences

  // ---------- numbers ----------

  ghost predicate AllDigits(ds: string) {
    forall i :: 0 <= i < |ds| ==> IsDigit(ds[i])
  }

  /** Reading digits on top of acc. */
  ghost function ValueOf(ds: string, acc: nat): nat
    requires AllDigits(ds)
  {
    if ds == [] then acc else ValueOf(ds[1..], 10 * acc + (ds[0] - '0') as nat)
  }

  lemma {:induction false} ScanAcross(ds: string, rest: string, acc: nat)
    requires AllDigits(ds) && !IsDigit(Peek(rest))
    ensures ScanDigits(ds + rest, acc) == (ValueOf(ds, acc), rest)
    decreases |ds|
  {
    if ds == [] {
      assert ds + rest == rest;
    } else {
      assert (ds + rest)[1..] == ds[1..] + rest;
      ScanAcross(ds[1..], rest, 10 * acc + (ds[0] - '0') as nat);
    }
  }

  lemma {:induction false} ValueSnoc(ds: string, d: char, acc: nat)
    requires AllDigits(ds) && IsDigit(d)
    ensures ValueOf(ds + [d], acc) == 10 * ValueOf(ds, acc) + (d - '0') as nat
    decreases |ds|
  {
    if ds == [] {
      assert ds + [d] == [d];
      assert [d][1..] == [];
    } else {
      assert (ds + [d])[1..] == ds[1..] + [d];
      ValueSnoc(ds[1..], d, 10 * acc + (ds[0] - '0') as nat);
    }
  }

  lemma {:induction false} DigitsReadBack(n: nat)
    ensures AllDigits(Digits(n)) && ValueOf(Digits(n), 0) == n
    ensures n > 0 ==> Digits(n)[0] != '0'
  {
    if n < 10 {
      assert Digits(n)[1..] == [];
    } else {
      DigitsReadBack(n / 10);
      ValueSnoc(Digits(n / 10), Digit(n % 10), 0);
    }
  }

  /** What may follow a number without becoming part of it. */
  predicate Follows(rest: string) {
    var c := Peek(rest);
    !IsDigit(c) && c != '.' && c != 'e' && c != 'E'
  }

  lemma NumberRoundTrip(n: int, rest: string)
    requires INT_MIN <= n <= INT_MAX && Follows(rest)
    ensures ParseNumber(PrintNumber(n) + rest) == Ok(n, rest)
  {
    var m: nat := if n < 0 then -n else n;
    var s := PrintNumber(n) + rest;
    var ds := Digits(m);
    DigitsReadBack(m);
    var s1 := if Peek(s) == '-' then s[1..] else s;
    assert s1 == ds + rest;
    if m == 0 {
      assert ds == "0";
      assert s1[1..] == rest;
    } else {
      ScanAcross(ds, rest, 0);
    }
  }

  // ---------- strings ----------

  lemma PlainReadBack(c: char, more: string)
    requires Plain(c) && ParseBody(more).Ok?
    ensures ParseBody([c] + more) == Ok([c] + ParseBody(more).value, ParseBody(more).rest)
  {
    assert ([c] + more)[1..] == more;
  }

  lemma PairReadBack(e: char, more: string)
    requires e != 'u' && ParseBody(more).Ok?
    ensures ParseBody(['\\', e] + more) == Ok([Unescaped(e)] + ParseBody(more).value, ParseBody(more).rest)
  {
    hide Unescaped;
    assert (['\\', e] + more)[2..] == more;
  }

  lemma UnitReadBack(unit: string, digits: string, more: string)
    requires UnescapeUnit(digits + more) == Ok(unit, more) && ParseBody(more).Ok?
    ensures ParseBody("\\u" + digits + more) == Ok(unit + ParseBody(more).value, ParseBody(more).rest)
  {
    hide UnescapeUnit;
    assert ("\\u" + digits + more)[2..] == digits + more;
  }

  lemma EscapeCharReadBack(c: char, more: string)
    requires c != '\0' && ParseBody(more).Ok?
    ensures ParseBody(EscapeChar(c) + more) == Ok([c] + ParseBody(more).value, ParseBody(more).rest)
  {
    hide ParseBody, UnescapeUnit;
    if Plain(c) {
      PlainReadBack(c, more);
    } else if |EscapeChar(c)| == 2 {
      var e := EscapeChar(c)[1];
      PairReadBack(e, more);
      assert EscapeChar(c) == ['\\', e];
    } else {
      ControlReadBack(c, more);
      var digits := "00" + [HexDigit(c as nat / 16 % 16), HexDigit(c as nat % 16)];
      UnitReadBack([c], digits, more);
      assert EscapeChar(c) == "\\u" + digits;
    }
  }

  lemma HexReadBack(d: nat)
    requires d < 16
    ensures HexValue(HexDigit(d)) == d
  {
  }

  lemma ControlReadBack(c: char, more: string)
    requires 0 < c as nat < 32
    ensures UnescapeUnit("00" + [HexDigit(c as nat / 16 % 16), HexDigit(c as nat % 16)] + more) == Ok([c], more)
  {
    var d := "00" + [HexDigit(c as nat / 16 % 16), HexDigit(c as nat % 16)];
    HexReadBack(c as nat / 16 % 16);
    HexReadBack(c as nat % 16);
    assert Hex4(d + more) == c as nat;
    assert (d + more)[4..] == more;
  }

  lemma {:induction false} BodyRoundTrip(s: string, rest: string)
    requires '\0' !in s
    ensures ParseBody(Escape(s) + "\"" + rest) == Ok(s, rest)
    decreases |s|
  {
    if s == [] {
      assert Escape(s) + "\"" + rest == "\"" + rest;
      assert ("\"" + rest)[1..] == rest;
    } else {
      BodyRoundTrip(s[1..], rest);
      var more := Escape(s[1..]) + "\"" + rest;
      EscapeCharReadBack(s[0], more);
      assert Escape(s) + "\"" + rest == EscapeChar(s[0]) + more;
      assert [s[0]] + s[1..] == s;
    }
  }

  lemma StringRoundTrip(s: string, rest: string)
    requires '\0' !in s
    ensures ParseString(PrintString(s) + rest) == Ok(s, rest)
  {
    hide ParseBody, Escape;
    BodyRoundTrip(s, rest);
    assert (PrintString(s) + rest)[1..] == Escape(s) + "\"" + rest;
  }

  // ---------- white space ----------

  lemma {:induction false} SkipTabs(n: int, s: string)
    ensures Skip(Tabs(n) + s) == Skip(s)
    decreases if n > 0 then n else 0
  {
    if n <= 0 {
      assert Tabs(n) + s == s;
    } else {
      assert Tabs(n) + s == Tabs(n - 1) + ("\t" + s);
      SkipTabs(n - 1, "\t" + s);
      assert ("\t" + s)[1..] == s;
    }
  }

  lemma SkipOne(c: char, s: string)
    requires c as nat <= 32
    ensures Skip([c] + s) == Skip(s)
  {
    assert ([c] + s)[1..] == s;
  }

  // ---------- trees ----------

  /** A printed value starts with a character that is neither space nor a bracket that closes. */
  lemma PrintStarts(t: Json, depth: nat, fmt: bool)
    ensures var s := Print(t, depth, fmt); s != [] && s[0] as nat > 32 && s[0] != ']' && s[0] != '}'
  {
  }

  lemma SkipStays(s: string, rest: string)
    requires s != [] && s[0] as nat > 32
    ensures Skip(s + rest) == s + rest && Peek(s + rest) == s[0]
  {
  }

  /** The text after the first item: a separator and the others, or nothing. */
  function MoreItems(items: seq<Json>, depth: nat, fmt: bool): string
    requires items != []
  {
    if |items| == 1 then [] else "," + If(fmt, " ") + PrintItems(items[1..], depth, fmt)
  }

  function MoreMembers(ms: seq<Member>, depth: nat, fmt: bool): string
    requires ms != []
  {
    (if |ms| == 1 then [] else ",") + If(fmt, "\n") + PrintMembers(ms[1..], depth, fmt)
  }

  lemma ItemsSplit(items: seq<Json>, depth: nat, fmt: bool, close: string)
    requires items != []
    ensures PrintItems(items, depth, fmt) + close == Print(items[0], depth, fmt) + (MoreItems(items, depth, fmt) + close)
    ensures Peek(close) == ']' ==> Follows(MoreItems(items, depth, fmt) + close)
    ensures |items| > 1 ==>
      MoreItems(items, depth, fmt) + close == "," + (If(fmt, " ") + (PrintItems(items[1..], depth, fmt) + close))
  {
    hide Print;
    assert PrintItems(items, depth, fmt) == Print(items[0], depth, fmt) + MoreItems(items, depth, fmt);
    Regroup(Print(items[0], depth, fmt), MoreItems(items, depth, fmt), close);
    if |items| > 1 {
      var others := PrintItems(items[1..], depth, fmt);
      Regroup("," + If(fmt, " "), others, close);
      Regroup(",", If(fmt, " "), others + close);
    }
  }

  lemma {:induction false} ValueRoundTrip(t: Json, depth: nat, fmt: bool, rest: string)
    requires Representable(t) && Follows(rest)
    ensures ParseValue(Print(t, depth, fmt) + rest) == Ok(t, rest)
    decreases t, 1
  {
    match t
    case Null => assert ("null" + rest)[..4] == "null" && ("null" + rest)[4..] == rest;
    case False => WordsReadBack(rest);
    case True => WordsReadBack(rest);
    case Number(n) => NumberValueReadBack(n, rest);
    case String(str) => StringValueReadBack(str, rest);
    case Array(items) => ArrayRoundTrip(t, items, depth, fmt, rest);
    case Object(ms) => ObjectRoundTrip(t, ms, depth, fmt, rest);
  }

  lemma WordsReadBack(rest: string)
    ensures ParseValue("false" + rest) == Ok(False, rest)
    ensures ParseValue("true" + rest) == Ok(True, rest)
  {
    assert ("false" + rest)[..5] == "false" && ("false" + rest)[5..] == rest;
    assert ("true" + rest)[..4] == "true" && ("true" + rest)[4..] == rest;
    assert ("false" + rest)[..4][0] == 'f' && ("true" + rest)[..4][0] == 't';
    if |"true" + rest| >= 5 { assert ("true" + rest)[..5][0] == 't'; }
  }

  lemma NotAWord(s: string)
    requires s != [] && s[0] != 'n' && s[0] != 't' && s[0] != 'f'
    ensures !StartsWith(s, "null") && !StartsWith(s, "false") && !StartsWith(s, "true")
  {
    if |s| >= 4 { assert s[..4][0] == s[0]; }
    if |s| >= 5 { assert s[..5][0] == s[0]; }
  }

  lemma NumberValueReadBack(n: int, rest: string)
    requires INT_MIN <= n <= INT_MAX && Follows(rest)
    ensures ParseValue(PrintNumber(n) + rest) == Ok(Number(n), rest)
  {
    hide ParseNumber;
    NumberRoundTrip(n, rest);
    NotAWord(PrintNumber(n) + rest);
  }

  lemma StringValueReadBack(str: string, rest: string)
    requires '\0' !in str
    ensures ParseValue(PrintString(str) + rest) == Ok(String(str), rest)
  {
    hide ParseString;
    StringRoundTrip(str, rest);
    NotAWord(PrintString(str) + rest);
  }

  lemma ArrayRoundTrip(t: Json, items: seq<Json>, depth: nat, fmt: bool, rest: string)
    requires t == Array(items) && Representable(t)
    ensures ParseValue(Print(t, depth, fmt) + rest) == Ok(t, rest)
    decreases t, 0
  {
    hide PrintItems, ParseMoreItems;
    var s := Print(t, depth, fmt) + rest;
    NotAWord(s);
    if items == [] {
      assert s[1..] == "]" + rest;
      assert Skip(s[1..]) == s[1..];
      assert s[1..][1..] == rest;
    } else {
      var body := PrintItems(items, depth + 1, fmt) + ("]" + rest);
      assert s[1..] == body;
      ItemsRoundTrip(items, [], depth + 1, fmt, rest);
      assert [] + [items[0]] == [items[0]] && [] + items == items;
    }
  }

  lemma LastItem(acc: seq<Json>, rest: string)
    ensures Skip("]" + rest) == "]" + rest && ParseMoreItems(acc, "]" + rest) == Ok(acc, rest)
  {
    assert ("]" + rest)[1..] == rest;
  }

  /** A comma, a space when formatted, and the text of a value: it is read and appended. */
  lemma NextItem(acc: seq<Json>, fmt: bool, s: string)
    requires Skip(s) == s && ParseValue(s).Ok?
    ensures var text := "," + (If(fmt, " ") + s);
      Skip(text) == text && ParseMoreItems(acc, text) == ParseMoreItems(acc + [ParseValue(s).value], Skip(ParseValue(s).rest))
  {
    hide ParseValue;
    var text := "," + (If(fmt, " ") + s);
    assert text[1..] == If(fmt, " ") + s;
    if fmt { SkipOne(' ', s); } else { assert [] + s == s; }
  }

  /** Reading items up to the closing bracket appends them to what was read before. */
  lemma {:induction false} ItemsRoundTrip(items: seq<Json>, acc: seq<Json>, depth: nat, fmt: bool, rest: string)
    requires items != [] && forall i :: 0 <= i < |items| ==> Representable(items[i])
    ensures var s := PrintItems(items, depth, fmt) + ("]" + rest);
      && Skip(s) == s && Peek(s) != ']'
      && var r := ParseValue(s);
      && r.Ok? && r.value == items[0]
      && ParseMoreItems(acc + [items[0]], Skip(r.rest)) == Ok(acc + items, rest)
    decreases items
  {
    hide Print, PrintItems, ParseValue, ParseMoreItems, Representable, Skip, Follows, MoreItems, If;
    var close := "]" + rest;
    var more := MoreItems(items, depth, fmt) + close;
    ItemsSplit(items, depth, fmt, close);
    PrintStarts(items[0], depth, fmt);
    SkipStays(Print(items[0], depth, fmt), more);
    ValueRoundTrip(items[0], depth, fmt, more);
    if |items| == 1 {
      NoMore(items, depth, fmt, close);
      LastItem(acc + items, rest);
      assert acc + [items[0]] == acc + items;
    } else {
      var s1 := PrintItems(items[1..], depth, fmt) + close;
      ItemsRoundTrip(items[1..], acc + [items[0]], depth, fmt, rest);
      NextItem(acc + [items[0]], fmt, s1);
      assert acc + [items[0]] + items[1..] == acc + items;
    }
  }

  lemma NoMore(items: seq<Json>, depth: nat, fmt: bool, close: string)
    requires |items| == 1
    ensures MoreItems(items, depth, fmt) + close == close
  {
    assert [] + close == close;
  }

  lemma ObjectRoundTrip(t: Json, ms: seq<Member>, depth: nat, fmt: bool, rest: string)
    requires t == Object(ms) && Representable(t)
    ensures ParseValue(Print(t, depth, fmt) + rest) == Ok(t, rest)
    decreases t, 0
  {
    hide PrintMembers, Print, ParseValue;
    if ms == [] {
      EmptyObjectRoundTrip(depth, fmt, rest);
    } else {
      hide Tabs;
      var body := PrintMembers(ms, depth + 1, fmt) + (If(fmt, Tabs(depth)) + ("}" + rest));
      ObjectText(ms, depth, fmt, rest);
      ObjectOpens(fmt, body);
      MembersRoundTrip(ms, [], depth + 1, fmt, depth, rest);
      assert [] + [ms[0]] == [ms[0]] && [] + ms == ms;
    }
  }

  lemma EmptyObjectRoundTrip(depth: nat, fmt: bool, rest: string)
    ensures ParseValue(Print(Object([]), depth, fmt) + rest) == Ok(Object([]), rest)
  {
    hide Tabs, Print, ParseValue, Skip, If, Peek;
    var gap := If(fmt, Tabs(depth - 1)) + ("}" + rest);
    EmptyObjectText(depth, fmt, rest);
    ObjectOpens(fmt, gap);
    BraceAhead(fmt, depth - 1, rest);
  }

  lemma EmptyObjectText(depth: nat, fmt: bool, rest: string)
    ensures Print(Object([]), depth, fmt) + rest == "{" + (If(fmt, "\n") + (If(fmt, Tabs(depth - 1)) + ("}" + rest)))
  {
    hide Tabs;
    if !fmt {
      assert [] + ([] + ("}" + rest)) == "}" + rest;
      assert "{" + [] + "}" == "{}";
    }
  }

  lemma ObjectText(ms: seq<Member>, depth: nat, fmt: bool, rest: string)
    requires ms != []
    ensures Print(Object(ms), depth, fmt) + rest ==
      "{" + (If(fmt, "\n") + (PrintMembers(ms, depth + 1, fmt) + (If(fmt, Tabs(depth)) + ("}" + rest))))
  {
    hide PrintMembers, Tabs;
  }

  /** An opening brace leads to parse_object. */
  lemma ObjectOpens(fmt: bool, s: string)
    ensures var text := "{" + (If(fmt, "\n") + s);
      var r := ParseObject(If(fmt, "\n") + s);
      && ParseValue(text) == (match r case Ok(v, rest) => Ok(Object(v), rest) case Fail => Fail case Beyond => Beyond)
      && Skip(If(fmt, "\n") + s) == Skip(s)
  {
    hide ParseObject, Skip;
    var text := "{" + (If(fmt, "\n") + s);
    NotAWord(text);
    assert text[1..] == If(fmt, "\n") + s;
    SkipBreak(fmt, s);
  }

  lemma SkipBreak(fmt: bool, s: string)
    ensures Skip(If(fmt, "\n") + s) == Skip(s)
  {
    if fmt { SkipOne('\n', s); } else { assert [] + s == s; }
  }

  /** Indentation before a closing brace is skipped. */
  lemma BraceAhead(fmt: bool, n: int, rest: string)
    ensures var s := Skip(If(fmt, Tabs(n)) + ("}" + rest)); s == "}" + rest && Peek(s) == '}' && s[1..] == rest
  {
    var close := "}" + rest;
    if fmt { SkipTabs(n, close); } else { assert [] + close == close; }
    assert close[1..] == rest;
  }

  lemma MembersSplit(ms: seq<Member>, depth: nat, fmt: bool, close: string)
    requires ms != []
    ensures PrintMembers(ms, depth, fmt) + close ==
      If(fmt, Tabs(depth)) + (PrintString(ms[0].name) + (":" + (If(fmt, "\t") + (Print(ms[0].value, depth, fmt) + (MoreMembers(ms, depth, fmt) + close)))))
    ensures |ms| > 1 ==> MoreMembers(ms, depth, fmt) + close == "," + (If(fmt, "\n") + (PrintMembers(ms[1..], depth, fmt) + close))
    ensures |ms| == 1 ==> MoreMembers(ms, depth, fmt) + close == If(fmt, "\n") + close
  {
    hide Print, PrintString, Tabs;
    var ind, name, sep, v := If(fmt, Tabs(depth)), PrintString(ms[0].name), If(fmt, "\t"), Print(ms[0].value, depth, fmt);
    var comma, br, others := if |ms| == 1 then [] else ",", If(fmt, "\n"), PrintMembers(ms[1..], depth, fmt);
    var more := MoreMembers(ms, depth, fmt);
    assert ind + name + ":" + sep + v + comma + br + others == ind + name + ":" + sep + v + more by {
      Regroup(ind + name + ":" + sep + v, comma, br);
      Regroup(ind + name + ":" + sep + v, comma + br, others);
    }
    Regroup(ind + name + ":" + sep + v, more, close);
    Regroup(ind + name + ":" + sep, v, more + close);
    Regroup(ind + name + ":", sep, v + (more + close));
    Regroup(ind + name, ":", sep + (v + (more + close)));
    Regroup(ind, name, ":" + (sep + (v + (more + close))));
    if |ms| == 1 {
      assert others == [];
      assert more == br;
    } else {
      Regroup("," + br, others, close);
      Regroup(",", br, others + close);
    }
  }

  /** A member text is read back, whatever indents it. */
  lemma MemberRoundTrip(m: Member, depth: nat, fmt: bool, more: string)
    requires '\0' !in m.name && Follows(more)
    requires ParseValue(Print(m.value, depth, fmt) + more) == Ok(m.value, more)
    ensures ParseMember(PrintString(m.name) + (":" + (If(fmt, "\t") + (Print(m.value, depth, fmt) + more)))) == Ok(m, more)
  {
    hide Print, PrintString, ParseValue, ParseString, Follows;
    var v := Print(m.value, depth, fmt) + more;
    var s1 := ":" + (If(fmt, "\t") + v);
    StringRoundTrip(m.name, s1);
    SkipStays(":", If(fmt, "\t") + v);
    assert s1[1..] == If(fmt, "\t") + v;
    PrintStarts(m.value, depth, fmt);
    SkipStays(Print(m.value, depth, fmt), more);
    if fmt { SkipOne('\t', v); } else { assert [] + v == v; }
  }

  lemma FollowsBreak(fmt: bool, n: int, rest: string)
    ensures Follows(If(fmt, "\n") + (If(fmt, Tabs(n)) + ("}" + rest)))
  {
    if !fmt {
      assert [] + ([] + ("}" + rest)) == "}" + rest;
    }
  }

  /** Reading members up to the closing brace appends them to what was read before. */
  lemma {:induction false} MembersRoundTrip(ms: seq<Member>, acc: seq<Member>, depth: nat, fmt: bool, outer: nat, rest: string)
    requires ms != [] && forall i :: 0 <= i < |ms| ==> '\0' !in ms[i].name && Representable(ms[i].value)
    ensures var s := Skip(PrintMembers(ms, depth, fmt) + (If(fmt, Tabs(outer)) + ("}" + rest)));
      && Peek(s) != '}'
      && var r := ParseMember(s);
      && r.Ok? && r.value == ms[0]
      && ParseMoreMembers(acc + [ms[0]], Skip(r.rest)) == Ok(acc + ms, rest)
    decreases ms
  {
    hide Print, PrintMembers, PrintString, ParseMember, ParseValue, Representable, Tabs, Skip;
    var close := If(fmt, Tabs(outer)) + ("}" + rest);
    var more := MoreMembers(ms, depth, fmt) + close;
    MembersSplit(ms, depth, fmt, close);
    var text := PrintString(ms[0].name) + (":" + (If(fmt, "\t") + (Print(ms[0].value, depth, fmt) + more)));
    SkipIndent(fmt, depth, ms[0].name, text);
    FollowsBreak(fmt, outer, rest);
    ValueRoundTrip(ms[0].value, depth, fmt, more);
    MemberRoundTrip(ms[0], depth, fmt, more);
    if |ms| == 1 {
      SkipBreak(fmt, close);
      BraceAhead(fmt, outer, rest);
      assert acc + [ms[0]] == acc + ms;
    } else {
      var s1 := PrintMembers(ms[1..], depth, fmt) + close;
      assert more[1..] == If(fmt, "\n") + s1;
      SkipStays(",", If(fmt, "\n") + s1);
      SkipBreak(fmt, s1);
      MembersRoundTrip(ms[1..], acc + [ms[0]], depth, fmt, outer, rest);
      assert acc + [ms[0]] + [ms[1..][0]] == acc + [ms[0]] + [ms[1]];
      assert acc + [ms[0]] + ms[1..] == acc + ms;
    }
  }

  lemma SkipIndent(fmt: bool, depth: nat, name: string, text: string)
    requires text != [] && PrintString(name) <= text
    ensures Skip(If(fmt, Tabs(depth)) + text) == text && Peek(text) == '\"'
  {
    if fmt { SkipTabs(depth, text); } else { assert [] + text == text; }
    assert text[0] == PrintString(name)[0];
  }

  // ---------- printouts are C strings ----------

  lemma NumberHasNoNul(n: int)
    ensures '\0' !in PrintNumber(n)
  {
  }

  lemma {:induction false} EscapeHasNoNul(s: string)
    requires '\0' !in s
    ensures '\0' !in Escape(s)
  {
    if s != [] { EscapeHasNoNul(s[1..]); }
  }

  lemma {:induction false} TabsHaveNoNul(n: int)
    ensures '\0' !in Tabs(n)
    decreases if n > 0 then n else 0
  {
    if n > 0 { TabsHaveNoNul(n - 1); }
  }

  /** No NUL is printed: the text a printer returns is all of the C string it leaves. */
  lemma {:induction false} PrintHasNoNul(t: Json, depth: nat, fmt: bool)
    requires Representable(t)
    ensures '\0' !in Print(t, depth, fmt)
    decreases t
  {
    hide PrintNumber, Escape, Tabs, PrintItems, PrintMembers;
    match t
    case Number(n) => NumberHasNoNul(n);
    case String(s) => EscapeHasNoNul(s);
    case Array(items) => ItemsHaveNoNul(items, depth + 1, fmt);
    case Object(ms) =>
      TabsHaveNoNul(depth - 1);
      TabsHaveNoNul(depth);
      MembersHaveNoNul(ms, depth + 1, fmt);
    case _ =>
  }

  lemma {:induction false} ItemsHaveNoNul(items: seq<Json>, depth: nat, fmt: bool)
    requires forall i :: 0 <= i < |items| ==> Representable(items[i])
    ensures '\0' !in PrintItems(items, depth, fmt)
    decreases items
  {
    hide Print, Representable;
    if items != [] {
      PrintHasNoNul(items[0], depth, fmt);
      ItemsHaveNoNul(items[1..], depth, fmt);
    }
  }

  lemma {:induction false} MembersHaveNoNul(ms: seq<Member>, depth: nat, fmt: bool)
    requires forall i :: 0 <= i < |ms| ==> '\0' !in ms[i].name && Representable(ms[i].value)
    ensures '\0' !in PrintMembers(ms, depth, fmt)
    decreases ms
  {
    hide Print, Representable, Escape, Tabs;
    if ms != [] {
      TabsHaveNoNul(depth);
      EscapeHasNoNul(ms[0].name);
      PrintHasNoNul(ms[0].value, depth, fmt);
      MembersHaveNoNul(ms[1..], depth, fmt);
    }
  }

  // ---------- the round trip ----------

  /** cJSON_Parse of cJSON_PrintUnformatted and of cJSON_Print gives back the tree. */
  lemma ParseUndoesPrint(t: Json, fmt: bool)
    requires Representable(t)
    ensures Parse(Print(t, 0, fmt)) == Ok(t, [])
  {
    PrintStarts(t, 0, fmt);
    SkipStays(Print(t, 0, fmt), []);
    assert Print(t, 0, fmt) + [] == Print(t, 0, fmt);
    ValueRoundTrip(t, 0, fmt, []);
  }
}

/** The layout of the formatted text, as a rule on the unformatted one: what each bracket, comma and
    colon outside a literal is followed or preceded by. */
module JsonLayout {
  import opened JsonSpec
  import opened JsonRoundTrip
  import opened JsonMinify
  import opened JsonSpaced
  import opened Sequences

  /** How many characters the first token has, as far as the layout is concerned: a literal, the braces
      of an empty object, or a single character. */
  function Token(s: string): (n: nat)
    requires s != []
    ensures 1 <= n <= |s|
  {
    if s[0] == '\"' then 1 + LiteralLength(s[1..])
    else if |s| >= 2 && s[0] == '{' && s[1] == '}' then 2
    else 1
  }

  /** What it becomes. open holds the brackets that are open, the innermost last. A line ends after an
      opening brace, after a comma between members and before a closing brace, and the next one begins
      with as many tabs as brackets are open there; a comma between items is followed by a blank, a
      colon by a tab. The braces of an empty object stand one tab further to the left. */
  function Shown(s: string, open: string): string
    requires s != []
  {
    match s[0]
    case '{' => if Token(s) == 2 then "{\n" + (Tabs(|open| - 1) + "}") else "{\n" + Tabs(|open| + 1)
    case '}' => "\n" + (Tabs(|open| - 1) + "}")
    case ',' => if open != [] && open[|open| - 1] == '[' then ", " else ",\n" + Tabs(|open|)
    case ':' => ":\t"
    case _ => s[..Token(s)]
  }

  /** The brackets open after it. */
  function Opened(s: string, open: string): string
    requires s != []
  {
    if s[0] == '[' || (s[0] == '{' && Token(s) == 1) then open + [s[0]]
    else if s[0] == ']' || s[0] == '}' then Closed(open)
    else open
  }

  function Layout(s: string, open: string): string
    decreases |s|
  {
    if s == [] then [] else Shown(s, open) + Layout(s[Token(s)..], Opened(s, open))
  }

  function Closed(open: string): string {
    if open == [] then [] else open[..|open| - 1]
  }

  lemma {:induction false} TabsAreTabs(n: int)
    ensures forall i :: 0 <= i < |Tabs(n)| ==> Tabs(n)[i] == '\t'
    decreases if n > 0 then n else 0
  {
    if n > 0 { TabsAreTabs(n - 1); }
  }

  /** A character the layout adds nothing to. */
  predicate Inner(c: char) {
    c != '\"' && c != '[' && c != ']' && c != '{' && c != '}' && c != ',' && c != ':'
  }

  lemma {:induction false} InnerCopied(a: string, rest: string, open: string)
    requires forall i :: 0 <= i < |a| ==> Inner(a[i])
    ensures Layout(a + rest, open) == a + Layout(rest, open)
    decreases |a|
  {
    hide Layout;
    if a == [] {
      assert a + rest == rest && a + Layout(rest, open) == Layout(rest, open);
    } else {
      InnerCopied(a[1..], rest, open);
      InnerChar(a[0], a[1..] + rest, open);
      assert [a[0]] + (a[1..] + rest) == a + rest;
      assert [a[0]] + (a[1..] + Layout(rest, open)) == a + Layout(rest, open);
    }
  }

  lemma OneToken(token: string, rest: string, open: string)
    requires token != [] && Token(token + rest) == |token|
    ensures Layout(token + rest, open) == Shown(token + rest, open) + Layout(rest, Opened(token + rest, open))
  {
    hide Shown, Opened, Token;
    assert (token + rest)[|token|..] == rest;
  }

  lemma InnerChar(c: char, rest: string, open: string)
    requires Inner(c)
    ensures Layout([c] + rest, open) == [c] + Layout(rest, open)
  {
    hide Layout, Tabs;
    assert ([c] + rest)[..1] == [c];
    OneToken([c], rest, open);
  }

  lemma LiteralCopied(str: string, rest: string, open: string)
    ensures Layout(PrintString(str) + rest, open) == PrintString(str) + Layout(rest, open)
  {
    hide Layout, Escape, LiteralLength, Tabs;
    var s := PrintString(str) + rest;
    EscapeLiteral(str, rest);
    assert s[1..] == Escape(str) + ("\"" + rest);
    assert s[..|PrintString(str)|] == PrintString(str);
    OneToken(PrintString(str), rest, open);
  }

  /** What one token is, and what it becomes. */
  ghost predicate Becomes(token: string, rest: string, open: string, shown: string, inside: string) {
    var s := token + rest;
    token != [] && Token(s) == |token| && Shown(s, open) == shown && Opened(s, open) == inside
  }

  lemma TokenLaidOut(token: string, rest: string, open: string, shown: string, inside: string)
    requires Becomes(token, rest, open, shown, inside)
    ensures Layout(token + rest, open) == shown + Layout(rest, inside)
  {
    hide Layout, Shown, Opened, Token;
    OneToken(token, rest, open);
  }

  lemma BracketTokens(rest: string, open: string)
    ensures Becomes("[", rest, open, "[", open + "[") && Becomes("]", rest, open + "[", "]", open)
  {
    hide Tabs;
    assert ("[" + rest)[..1] == "[" && ("]" + rest)[..1] == "]";
    assert Closed(open + "[") == open;
  }

  lemma BraceToken(rest: string, open: string)
    requires rest == [] || rest[0] != '}'
    ensures Becomes("{", rest, open, "{\n" + Tabs(|open| + 1), open + "{")
  {
    hide Tabs;
  }

  lemma EmptyToken(rest: string, open: string)
    ensures Becomes("{}", rest, open, "{\n" + (Tabs(|open| - 1) + "}"), open)
  {
    hide Tabs;
  }

  lemma CloseToken(rest: string, open: string)
    ensures Becomes("}", rest, open + "{", "\n" + (Tabs(|open|) + "}"), open)
  {
    hide Tabs;
    assert Closed(open + "{") == open && |open + "{"| - 1 == |open|;
  }

  lemma ItemComma(rest: string, open: string)
    requires open != [] && open[|open| - 1] == '['
    ensures Becomes(",", rest, open, ", ", open)
  {
    hide Tabs, LiteralLength;
    assert ("," + rest)[0] == ',';
  }

  lemma MemberComma(rest: string, open: string)
    requires open != [] && open[|open| - 1] != '['
    ensures Becomes(",", rest, open, ",\n" + Tabs(|open|), open)
  {
    hide Tabs, LiteralLength;
    assert ("," + rest)[0] == ',';
  }

  lemma ColonToken(rest: string, open: string)
    ensures Becomes(":", rest, open, ":\t", open)
  {
    hide Tabs, LiteralLength;
    assert (":" + rest)[0] == ':';
  }

  lemma BracketsLaidOut(rest: string, open: string)
    ensures Layout("[" + rest, open) == "[" + Layout(rest, open + "[")
    ensures Layout("]" + rest, open + "[") == "]" + Layout(rest, open)
  {
    hide Becomes, Layout;
    BracketTokens(rest, open);
    TokenLaidOut("[", rest, open, "[", open + "[");
    TokenLaidOut("]", rest, open + "[", "]", open);
  }

  lemma BraceLaidOut(rest: string, open: string)
    requires rest == [] || rest[0] != '}'
    ensures Layout("{" + rest, open) == "{\n" + (Tabs(|open| + 1) + Layout(rest, open + "{"))
  {
    hide Becomes, Layout, Tabs;
    BraceToken(rest, open);
    TokenLaidOut("{", rest, open, "{\n" + Tabs(|open| + 1), open + "{");
    Regroup("{\n", Tabs(|open| + 1), Layout(rest, open + "{"));
  }

  lemma EmptyLaidOut(rest: string, open: string)
    ensures Layout("{" + ("}" + rest), open) == "{\n" + (Tabs(|open| - 1) + ("}" + Layout(rest, open)))
  {
    hide Becomes, Layout, Tabs;
    TwoBraces(rest);
    EmptyToken(rest, open);
    TokenLaidOut("{}", rest, open, "{\n" + (Tabs(|open| - 1) + "}"), open);
    Regroup("{\n", Tabs(|open| - 1) + "}", Layout(rest, open));
    Regroup(Tabs(|open| - 1), "}", Layout(rest, open));
  }

  lemma TwoBraces(rest: string)
    ensures "{" + ("}" + rest) == "{}" + rest
  {
  }

  lemma CloseLaidOut(rest: string, open: string)
    ensures Layout("}" + rest, open + "{") == "\n" + (Tabs(|open|) + ("}" + Layout(rest, open)))
  {
    hide Becomes, Layout, Tabs;
    CloseToken(rest, open);
    TokenLaidOut("}", rest, open + "{", "\n" + (Tabs(|open|) + "}"), open);
    Regroup("\n", Tabs(|open|) + "}", Layout(rest, open));
    Regroup(Tabs(|open|), "}", Layout(rest, open));
  }

  lemma ItemCommaLaidOut(rest: string, open: string)
    ensures Layout("," + rest, open + "[") == ", " + Layout(rest, open + "[")
  {
    hide Becomes, Layout, Tabs;
    ItemComma(rest, open + "[");
    TokenLaidOut(",", rest, open + "[", ", ", open + "[");
  }

  lemma MemberCommaLaidOut(rest: string, open: string)
    ensures Layout("," + rest, open + "{") == ",\n" + Tabs(|open| + 1) + Layout(rest, open + "{")
  {
    hide Becomes, Layout, Tabs;
    assert |open + "{"| == |open| + 1;
    MemberComma(rest, open + "{");
    TokenLaidOut(",", rest, open + "{", ",\n" + Tabs(|open| + 1), open + "{");
  }

  lemma ColonLaidOut(rest: string, open: string)
    ensures Layout(":" + rest, open) == ":\t" + Layout(rest, open)
  {
    hide Becomes, Layout, Tabs;
    ColonToken(rest, open);
    TokenLaidOut(":", rest, open, ":\t", open);
  }

  /** The formatted text of a value is its unformatted one laid out, wherever it stands. */
  lemma {:induction false} ValueLaidOut(t: Json, depth: nat, rest: string, open: string)
    ensures Layout(Print(t, depth, false) + rest, open) == Print(t, |open|, true) + Layout(rest, open)
    decreases t, 1
  {
    hide Layout;
    match t
    case Null => InnerCopied("null", rest, open);
    case False => InnerCopied("false", rest, open);
    case True => InnerCopied("true", rest, open);
    case Number(n) => InnerCopied(PrintNumber(n), rest, open);
    case String(str) => LiteralCopied(str, rest, open);
    case Array(items) => ArrayLaidOut(items, depth, rest, open);
    case Object(ms) => ObjectLaidOut(ms, depth, rest, open);
  }

  lemma ArrayLaidOut(items: seq<Json>, depth: nat, rest: string, open: string)
    ensures Layout(Print(Array(items), depth, false) + rest, open) == Print(Array(items), |open|, true) + Layout(rest, open)
    decreases Array(items), 0
  {
    hide Layout, Print, PrintItems;
    var left := Layout(rest, open);
    ArrayText(items, depth, false, rest);
    ArrayText(items, |open|, true, left);
    BracketsLaidOut(rest, open);
    if items == [] {
      BracketsLaidOut("]" + rest, open);
      assert "[" + ("]" + rest) == "[]" + rest && "[" + ("]" + left) == "[]" + left;
    } else {
      BracketsLaidOut(PrintItems(items, depth + 1, false) + ("]" + rest), open);
      ItemsLaidOut(items, depth + 1, "]" + rest, open);
    }
  }

  lemma {:induction false} ItemsLaidOut(items: seq<Json>, depth: nat, rest: string, open: string)
    requires items != []
    ensures Layout(PrintItems(items, depth, false) + rest, open + "[") == PrintItems(items, |open| + 1, true) + Layout(rest, open + "[")
    decreases items
  {
    hide Layout, Print, PrintItems;
    var left := Layout(rest, open + "[");
    PlainItems(items, depth, rest);
    ItemsSplit(items, |open| + 1, true, left);
    if |items| == 1 {
      ValueLaidOut(items[0], depth, rest, open + "[");
      assert MoreItems(items, |open| + 1, true) + left == left;
    } else {
      var more := PrintItems(items[1..], depth, false) + rest;
      ValueLaidOut(items[0], depth, "," + more, open + "[");
      ItemCommaLaidOut(more, open);
      ItemsLaidOut(items[1..], depth, rest, open);
      var shown := PrintItems(items[1..], |open| + 1, true) + left;
      assert ", " + shown == "," + (" " + shown);
    }
  }

  lemma ObjectLaidOut(ms: seq<Member>, depth: nat, rest: string, open: string)
    ensures Layout(Print(Object(ms), depth, false) + rest, open) == Print(Object(ms), |open|, true) + Layout(rest, open)
    decreases Object(ms), 0
  {
    hide Layout, Print, PrintMembers, Tabs;
    var left := Layout(rest, open);
    PlainObjectText(ms, depth, rest);
    if ms == [] {
      assert [] + ("}" + rest) == "}" + rest;
      EmptyLaidOut(rest, open);
      EmptyObjectText(|open|, true, left);
      assert "{\n" + (Tabs(|open| - 1) + ("}" + left)) == "{" + ("\n" + (Tabs(|open| - 1) + ("}" + left)));
    } else {
      var body := PrintMembers(ms, depth + 1, false) + ("}" + rest);
      MembersStart(ms, depth + 1, "}" + rest);
      BraceLaidOut(body, open);
      MembersLaidOut(ms, depth + 1, rest, open);
      ObjectText(ms, |open|, true, left);
      var shown := PrintMembers(ms, |open| + 1, true) + (Tabs(|open|) + ("}" + left));
      assert "{\n" + shown == "{" + ("\n" + shown);
    }
  }

  lemma MembersStart(ms: seq<Member>, depth: nat, rest: string)
    requires ms != []
    ensures var s := PrintMembers(ms, depth, false) + rest; s != [] && s[0] == '\"'
  {
    hide Print, PrintMembers;
    PlainMembers(ms, depth, rest);
  }

  /** The members from the tabs before the first to the closing brace. */
  lemma {:induction false} MembersLaidOut(ms: seq<Member>, depth: nat, rest: string, open: string)
    requires ms != []
    ensures Tabs(|open| + 1) + Layout(PrintMembers(ms, depth, false) + ("}" + rest), open + "{") ==
      PrintMembers(ms, |open| + 1, true) + (Tabs(|open|) + ("}" + Layout(rest, open)))
    decreases ms
  {
    hide Layout, Print, PrintMembers, PrintString, Tabs;
    var inside := open + "{";
    var close := Tabs(|open|) + ("}" + Layout(rest, open));
    var more := PrintMembers(ms[1..], depth, false) + ("}" + rest);
    var next := if |ms| == 1 then "}" + rest else "," + more;
    var value := Print(ms[0].value, depth, false) + next;
    PlainMembers(ms, depth, "}" + rest);
    LiteralCopied(ms[0].name, ":" + value, inside);
    ColonLaidOut(value, inside);
    ValueLaidOut(ms[0].value, depth, next, inside);
    MembersSplit(ms, |open| + 1, true, close);
    var shown := Print(ms[0].value, |open| + 1, true) + Layout(next, inside);
    assert ":\t" + shown == ":" + ("\t" + shown);
    if |ms| == 1 {
      CloseLaidOut(rest, open);
    } else {
      MemberCommaLaidOut(more, open);
      MembersLaidOut(ms[1..], depth, rest, open);
      Regroup(",\n", Tabs(|open| + 1), Layout(more, inside));
      var others := PrintMembers(ms[1..], |open| + 1, true) + close;
      assert ",\n" + others == "," + ("\n" + others);
    }
  }

  /** cJSON_Print is cJSON_PrintUnformatted, laid out. */
  lemma FormattedIsLaidOut(t: Json)
    ensures Print(t, 0, true) == Layout(Print(t, 0, false), "")
  {
    hide Print;
    ValueLaidOut(t, 0, [], "");
    assert Print(t, 0, false) + [] == Print(t, 0, false);
    assert Layout([], "") == [] && Print(t, 0, true) + [] == Print(t, 0, true);
  }
}

/** Values of every kind and their two texts, spelled out. */
module JsonSamples {
  import opened JsonSpec

  lemma Numbers()
    ensures PrintNumber(-120) == "-120" && PrintNumber(2147483647) == "2147483647"
  {
    assert Digits(12) == "12";
    assert Digits(120) == "120";
    assert Digits(2147) == "2147" by { assert Digits(21) == "21"; assert Digits(214) == "214"; }
    assert Digits(214748) == "214748" by { assert Digits(21474) == "21474"; }
    assert Digits(21474836) == "21474836" by { assert Digits(2147483) == "2147483"; }
    assert Digits(214748364) == "214748364";
  }

  lemma Strings()
    ensures PrintString("x\"y") == "\"x\\\"y\"" && PrintString("a") == "\"a\"" && PrintString("b") == "\"b\""
    ensures PrintString("d") == "\"d\""
  {
    assert "x\"y"[1..] == "\"y" && "\"y"[1..] == "y" && "y"[1..] == "";
    assert Escape("y") == "y";
    assert Escape("\"y") == "\\\"y";
  }

  /** The characters that are escaped, each spelled out, and one that has no short form. */
  lemma Escapes()
    ensures EscapeChar('\n') == "\\n" && EscapeChar('\r') == "\\r" && EscapeChar('\t') == "\\t"
    ensures EscapeChar(8 as char) == "\\b" && EscapeChar(12 as char) == "\\f"
    ensures EscapeChar('\"') == "\\\"" && EscapeChar('\\') == "\\\\" && EscapeChar('/') == "/"
    ensures EscapeChar(31 as char) == "\\u001f"
  {
  }

  lemma TabsAre()
    ensures Tabs(-1) == "" && Tabs(0) == "" && Tabs(1) == "\t" && Tabs(2) == "\t\t"
  {
    assert Tabs(1) == Tabs(0) + "\t";
  }

  lemma LastItem(t: Json, depth: nat, fmt: bool)
    ensures PrintItems([t], depth, fmt) == Print(t, depth, fmt)
  {
  }

  lemma NextItem(t: Json, ts: seq<Json>, depth: nat, fmt: bool)
    requires ts != []
    ensures PrintItems([t] + ts, depth, fmt) == Print(t, depth, fmt) + ((if fmt then ", " else ",") + PrintItems(ts, depth, fmt))
  {
    hide Print;
    assert ([t] + ts)[1..] == ts;
  }

  /** One of each kind of item, separated as each printer does it. */
  lemma Items(depth: nat, fmt: bool)
    ensures var sep := if fmt then ", " else ",";
      Print(Array([Null, False, True, Number(-120), String("x\"y")]), depth, fmt) ==
        "[" + ("null" + (sep + ("false" + (sep + ("true" + (sep + ("-120" + (sep + "\"x\\\"y\"")))))))) + "]"
  {
    hide PrintNumber, PrintString, PrintItems;
    Numbers();
    Strings();
    var d := depth + 1;
    LastItem(String("x\"y"), d, fmt);
    NextItem(Number(-120), [String("x\"y")], d, fmt);
    NextItem(True, [Number(-120)] + [String("x\"y")], d, fmt);
    NextItem(False, [True] + ([Number(-120)] + [String("x\"y")]), d, fmt);
    NextItem(Null, [False] + ([True] + ([Number(-120)] + [String("x\"y")])), d, fmt);
    assert [Null] + ([False] + ([True] + ([Number(-120)] + [String("x\"y")]))) == [Null, False, True, Number(-120), String("x\"y")];
  }

  lemma LastMember(name: string, v: Json, depth: nat, fmt: bool)
    ensures PrintMembers([Member(name, v)], depth, fmt) ==
      If(fmt, Tabs(depth)) + PrintString(name) + (if fmt then ":\t" else ":") + Print(v, depth, fmt) + If(fmt, "\n")
  {
    hide Print, PrintString, Tabs;
  }

  lemma NextMember(name: string, v: Json, ms: seq<Member>, depth: nat, fmt: bool)
    requires ms != []
    ensures PrintMembers([Member(name, v)] + ms, depth, fmt) ==
      If(fmt, Tabs(depth)) + PrintString(name) + (if fmt then ":\t" else ":") + Print(v, depth, fmt)
        + (if fmt then ",\n" else ",") + PrintMembers(ms, depth, fmt)
  {
    hide Print, PrintString, Tabs;
    assert ([Member(name, v)] + ms)[1..] == ms;
  }

  /** Two members, one an empty object, in an object that stands on its own. */
  lemma Members()
    ensures var t := Object([Member("a", Null), Member("b", Object([]))]);
      && Print(t, 0, false) == "{" + ("\"a\"" + ":" + "null" + "," + ("\"b\"" + ":" + "{}")) + "}"
      && Print(t, 0, true) == "{" + "\n" + ("\t" + "\"a\"" + ":\t" + "null" + ",\n" + ("\t" + "\"b\"" + ":\t" + "{\n}" + "\n")) + "}"
  {
    MembersOf(false);
    MembersOf(true);
  }

  lemma MembersOf(fmt: bool)
    ensures var t := Object([Member("a", Null), Member("b", Object([]))]);
      Print(t, 0, fmt) ==
        if fmt then "{" + "\n" + ("\t" + "\"a\"" + ":\t" + "null" + ",\n" + ("\t" + "\"b\"" + ":\t" + "{\n}" + "\n")) + "}"
        else "{" + ("\"a\"" + ":" + "null" + "," + ("\"b\"" + ":" + "{}")) + "}"
  {
    hide PrintString, PrintMembers, Tabs;
    var a, b := Member("a", Null), Member("b", Object([]));
    Strings();
    TabsAre();
    EmptyObject(fmt);
    LastMember("b", Object([]), 1, fmt);
    NextMember("a", Null, [b], 1, fmt);
    assert [a] + [b] == [a, b];
  }

  lemma EmptyObject(fmt: bool)
    ensures Print(Object([]), 1, fmt) == if fmt then "{\n}" else "{}"
  {
    TabsAre();
  }

  /** An object in an object, its member one tab further in. */
  lemma Nested(fmt: bool)
    ensures Print(Object([Member("d", Array([]))]), 1, fmt) == if fmt then "{\n\t\t\"d\":\t[]\n\t}" else "{\"d\":[]}"
  {
    hide PrintString, PrintMembers, Tabs;
    Strings();
    TabsAre();
    LastMember("d", Array([]), 2, fmt);
  }
}

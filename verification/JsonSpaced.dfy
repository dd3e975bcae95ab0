/** Documents as people write them: any blanks, or comments, between any two tokens. The parser reads
    past the blanks, the minifier takes out both. */
module JsonSpaced {
  import opened JsonSpec
  import opened JsonRoundTrip
  import opened JsonMinify
  import opened Sequences

  /** A piece of what may stand between tokens. */
  datatype Piece = Blank(c: char) | Line(text: string) | Block(text: string)

  function PieceText(p: Piece): string {
    match p
    case Blank(c) => [c]
    case Line(s) => "//" + (s + "\n")
    case Block(s) => "/*" + (s + "*/")
  }

  function GapText(g: seq<Piece>): string {
    if g == [] then [] else PieceText(g[0]) + GapText(g[1..])
  }

  /** A document: a tree with a gap at every place between two tokens. */
  datatype Doc =
    | Scalar(t: Json)
    | EmptyArray(gap: seq<Piece>)
    | Arr(items: seq<Item>)
    | EmptyObject(gap: seq<Piece>)
    | Obj(entries: seq<Entry>)

  datatype Item = Item(before: seq<Piece>, doc: Doc, after: seq<Piece>)

  datatype Entry = Entry(before: seq<Piece>, name: string, colon: seq<Piece>, value: seq<Piece>, doc: Doc, after: seq<Piece>)

  predicate WellFormed(d: Doc) {
    match d
    case Scalar(t) => !t.Array? && !t.Object?
    case Arr(items) => items != [] && forall i | 0 <= i < |items| :: WellFormed(items[i].doc)
    case Obj(es) => es != [] && forall i | 0 <= i < |es| :: WellFormed(es[i].doc)
    case _ => true
  }

  function Tree(d: Doc): Json {
    match d
    case Scalar(t) => t
    case EmptyArray(_) => Array([])
    case Arr(items) => Array(Trees(items))
    case EmptyObject(_) => Object([])
    case Obj(es) => Object(Members(es))
  }

  function Trees(items: seq<Item>): (r: seq<Json>)
    ensures |r| == |items|
  {
    if items == [] then [] else [Tree(items[0].doc)] + Trees(items[1..])
  }

  function Members(es: seq<Entry>): (r: seq<Member>)
    ensures |r| == |es|
  {
    if es == [] then [] else [Member(es[0].name, Tree(es[0].doc))] + Members(es[1..])
  }

  function Text(d: Doc): string
    decreases d
  {
    match d
    case Scalar(t) => Print(t, 0, false)
    case EmptyArray(g) => "[" + (GapText(g) + "]")
    case Arr(items) => "[" + (ItemsText(items) + "]")
    case EmptyObject(g) => "{" + (GapText(g) + "}")
    case Obj(es) => "{" + (EntriesText(es) + "}")
  }

  function ItemText(i: Item): string
    decreases i
  {
    GapText(i.before) + (Text(i.doc) + GapText(i.after))
  }

  function ItemsText(items: seq<Item>): string
    decreases items
  {
    if items == [] then []
    else ItemText(items[0]) + if |items| == 1 then [] else "," + ItemsText(items[1..])
  }

  function EntryText(e: Entry): string
    decreases e
  {
    GapText(e.before) + (PrintString(e.name) + (GapText(e.colon) + (":" + (GapText(e.value) + (Text(e.doc) + GapText(e.after))))))
  }

  function EntriesText(es: seq<Entry>): string
    decreases es
  {
    if es == [] then []
    else EntryText(es[0]) + if |es| == 1 then [] else "," + EntriesText(es[1..])
  }

  /** Every gap of the document is of the given kind. */
  predicate Gaps(d: Doc, kind: Piece -> bool) {
    match d
    case Scalar(_) => true
    case EmptyArray(g) => Whole(g, kind)
    case Arr(items) => forall i | 0 <= i < |items| :: Whole(items[i].before, kind) && Whole(items[i].after, kind) && Gaps(items[i].doc, kind)
    case EmptyObject(g) => Whole(g, kind)
    case Obj(es) => forall i | 0 <= i < |es| ::
      && Whole(es[i].before, kind) && Whole(es[i].colon, kind) && Whole(es[i].value, kind) && Whole(es[i].after, kind)
      && Gaps(es[i].doc, kind)
  }

  predicate Whole(g: seq<Piece>, kind: Piece -> bool) {
    forall i :: 0 <= i < |g| ==> kind(g[i])
  }

  // ---------- reading past blanks ----------

  /** What the parser skips. */
  predicate Skipped(p: Piece) {
    p.Blank? && p.c as nat <= 32
  }

  lemma {:induction false} GapSkipped(g: seq<Piece>, s: string)
    requires Whole(g, Skipped)
    ensures Skip(GapText(g) + s) == Skip(s)
  {
    if g == [] {
      assert GapText(g) + s == s;
    } else {
      GapSkipped(g[1..], s);
      assert GapText(g) + s == [g[0].c] + (GapText(g[1..]) + s);
      SkipOne(g[0].c, GapText(g[1..]) + s);
    }
  }

  /** A text that a gap may be put before without changing how a value in front of it ends. */
  predicate Solid(s: string) {
    (s == [] || s[0] as nat > 32) && Follows(s)
  }

  lemma SolidSkips(s: string)
    requires Solid(s)
    ensures Skip(s) == s
  {
  }

  lemma GapFollows(g: seq<Piece>, s: string)
    requires Whole(g, Skipped) && Follows(s)
    ensures Follows(GapText(g) + s)
  {
    if g == [] {
      assert GapText(g) + s == s;
    } else {
      assert (GapText(g) + s)[0] == g[0].c;
    }
  }

  /** A document starts with a character that is neither blank nor a closing bracket. */
  lemma TextStarts(d: Doc)
    requires WellFormed(d)
    ensures var s := Text(d); s != [] && s[0] as nat > 32 && s[0] != ']' && s[0] != '}'
  {
    if d.Scalar? { PrintStarts(d.t, 0, false); }
  }

  predicate ReadableItems(items: seq<Item>) {
    && items != []
    && forall i :: 0 <= i < |items| ==>
      && WellFormed(items[i].doc) && Representable(Tree(items[i].doc)) && Gaps(items[i].doc, Skipped)
      && Whole(items[i].before, Skipped) && Whole(items[i].after, Skipped)
  }

  predicate ReadableEntries(es: seq<Entry>) {
    && es != []
    && forall i :: 0 <= i < |es| ==>
      && WellFormed(es[i].doc) && '\0' !in es[i].name && Representable(Tree(es[i].doc)) && Gaps(es[i].doc, Skipped)
      && Whole(es[i].before, Skipped) && Whole(es[i].colon, Skipped) && Whole(es[i].value, Skipped) && Whole(es[i].after, Skipped)
  }

  lemma ArrayOpens(s: string)
    ensures ParseValue("[" + s) == match ParseArray(s) case Ok(v, rest) => Ok(Array(v), rest) case Fail => Fail case Beyond => Beyond
  {
    hide ParseArray;
    NotAWord("[" + s);
    assert ("[" + s)[1..] == s;
  }

  lemma BraceOpens(s: string)
    ensures ParseValue("{" + s) == match ParseObject(s) case Ok(v, rest) => Ok(Object(v), rest) case Fail => Fail case Beyond => Beyond
  {
    hide ParseObject;
    NotAWord("{" + s);
    assert ("{" + s)[1..] == s;
  }

  /** One item in front of a separator or bracket. */
  lemma ItemRead(i: Item, next: string)
    requires WellFormed(i.doc) && Whole(i.before, Skipped) && Whole(i.after, Skipped) && Solid(next)
    requires ParseValue(Text(i.doc) + (GapText(i.after) + next)) == Ok(Tree(i.doc), GapText(i.after) + next)
    ensures var s := ItemText(i) + next;
      && Peek(Skip(s)) != ']'
      && ParseValue(Skip(s)) == Ok(Tree(i.doc), GapText(i.after) + next)
      && Skip(GapText(i.after) + next) == next
  {
    hide ParseValue, Skip, Text, GapText, Tree, WellFormed;
    var text, behind := Text(i.doc), GapText(i.after) + next;
    TextStarts(i.doc);
    SkipStays(text, behind);
    Regroup(GapText(i.before), text + GapText(i.after), next);
    Regroup(text, GapText(i.after), next);
    GapSkipped(i.before, text + behind);
    GapSkipped(i.after, next);
    SolidSkips(next);
  }

  lemma CommaItem(acc: seq<Json>, s: string)
    requires ParseValue(Skip(s)).Ok?
    ensures Solid("," + s)
    ensures var r := ParseValue(Skip(s)); ParseMoreItems(acc, "," + s) == ParseMoreItems(acc + [r.value], Skip(r.rest))
  {
    hide ParseValue, Skip;
    assert ("," + s)[1..] == s;
  }

  /** The items of an array are read whatever comes behind them, and reading goes on there. */
  lemma {:induction false} ItemsThen(items: seq<Item>, acc: seq<Json>, tail: string)
    requires ReadableItems(items) && Solid(tail)
    ensures var s := ItemsText(items) + tail;
      && Peek(Skip(s)) != ']'
      && var r := ParseValue(Skip(s));
      && r.Ok? && r.value == Trees(items)[0]
      && ParseMoreItems(acc + [r.value], Skip(r.rest)) == ParseMoreItems(acc + Trees(items), tail)
    decreases items
  {
    hide ParseValue, ParseMoreItems, Skip, Text, GapText, Tree, WellFormed, Gaps, Representable, ItemText, Solid, Follows, Whole;
    var i := items[0];
    var more := ItemsText(items[1..]) + tail;
    var next := if |items| == 1 then tail else "," + more;
    if |items| > 1 {
      ItemsThen(items[1..], acc + [Tree(i.doc)], tail);
      CommaItem(acc + [Tree(i.doc)], more);
    }
    FollowsGap(i.after, next);
    DocRead(i.doc, GapText(i.after) + next);
    ItemRead(i, next);
    ItemsTextSplit(items, tail);
    TreesJoin(acc, items);
  }

  lemma TreesJoin(acc: seq<Json>, items: seq<Item>)
    requires items != []
    ensures acc + [Tree(items[0].doc)] + Trees(items[1..]) == acc + Trees(items)
    ensures |items| == 1 ==> acc + [Tree(items[0].doc)] == acc + Trees(items)
  {
    hide Tree;
    var t, more := Tree(items[0].doc), Trees(items[1..]);
    assert Trees(items) == [t] + more;
    Regroup(acc, [t], more);
  }

  lemma MembersJoin(acc: seq<Member>, es: seq<Entry>)
    requires es != []
    ensures acc + [Member(es[0].name, Tree(es[0].doc))] + Members(es[1..]) == acc + Members(es)
    ensures |es| == 1 ==> acc + [Member(es[0].name, Tree(es[0].doc))] == acc + Members(es)
  {
    hide Tree;
    var m, more := Member(es[0].name, Tree(es[0].doc)), Members(es[1..]);
    assert Members(es) == [m] + more;
    Regroup(acc, [m], more);
  }

  lemma FollowsGap(g: seq<Piece>, s: string)
    requires Whole(g, Skipped) && Solid(s)
    ensures Follows(GapText(g) + s)
  {
    hide GapText;
    GapFollows(g, s);
  }

  lemma ItemsTextSplit(items: seq<Item>, tail: string)
    requires items != []
    ensures ItemsText(items) + tail == ItemText(items[0]) + (if |items| == 1 then tail else "," + (ItemsText(items[1..]) + tail))
  {
    hide ItemText;
    if |items| == 1 {
      assert ItemText(items[0]) + [] == ItemText(items[0]);
    } else {
      Regroup(ItemText(items[0]), "," + ItemsText(items[1..]), tail);
      Regroup(",", ItemsText(items[1..]), tail);
    }
  }

  /** One member in front of a separator or bracket. */
  lemma EntryRead(e: Entry, next: string)
    requires WellFormed(e.doc) && Solid(next) && '\0' !in e.name
    requires Whole(e.before, Skipped) && Whole(e.colon, Skipped) && Whole(e.value, Skipped) && Whole(e.after, Skipped)
    requires ParseValue(Text(e.doc) + (GapText(e.after) + next)) == Ok(Tree(e.doc), GapText(e.after) + next)
    ensures var s := EntryText(e) + next;
      && Peek(Skip(s)) != '}'
      && ParseMember(Skip(s)) == Ok(Member(e.name, Tree(e.doc)), GapText(e.after) + next)
      && Skip(GapText(e.after) + next) == next
  {
    hide ParseValue, ParseMember, Skip, Text, GapText, Tree, WellFormed, PrintString;
    var behind := Text(e.doc) + (GapText(e.after) + next);
    var name := PrintString(e.name);
    var rest := GapText(e.colon) + (":" + (GapText(e.value) + behind));
    EntrySplit(e, next);
    GapSkipped(e.before, name + rest);
    NameStarts(e.name);
    SkipStays(name, rest);
    TextStarts(e.doc);
    SkipStays(Text(e.doc), GapText(e.after) + next);
    MemberRead(e.name, e.colon, e.value, behind);
    GapSkipped(e.after, next);
    SolidSkips(next);
  }

  lemma NameStarts(name: string)
    ensures PrintString(name) != [] && PrintString(name)[0] == '\"'
  {
  }

  lemma EntrySplit(e: Entry, next: string)
    ensures EntryText(e) + next ==
      GapText(e.before) + (PrintString(e.name) + (GapText(e.colon) + (":" + (GapText(e.value) + (Text(e.doc) + (GapText(e.after) + next))))))
  {
    hide Text, GapText, PrintString;
    Regroup(Text(e.doc), GapText(e.after), next);
    Regroup(GapText(e.value), Text(e.doc) + GapText(e.after), next);
    Regroup(":", GapText(e.value) + (Text(e.doc) + GapText(e.after)), next);
    Regroup(GapText(e.colon), ":" + (GapText(e.value) + (Text(e.doc) + GapText(e.after))), next);
    Regroup(PrintString(e.name), GapText(e.colon) + (":" + (GapText(e.value) + (Text(e.doc) + GapText(e.after)))), next);
    Regroup(GapText(e.before), PrintString(e.name) + (GapText(e.colon) + (":" + (GapText(e.value) + (Text(e.doc) + GapText(e.after))))), next);
  }

  /** A name, blanks, a colon, blanks, and whatever is read there. */
  lemma MemberRead(name: string, b1: seq<Piece>, b2: seq<Piece>, text: string)
    requires '\0' !in name && Whole(b1, Skipped) && Whole(b2, Skipped) && Skip(text) == text
    ensures ParseMember(PrintString(name) + (GapText(b1) + (":" + (GapText(b2) + text)))) ==
      match ParseValue(text) case Ok(v, rest) => Ok(Member(name, v), rest) case Fail => Fail case Beyond => Beyond
  {
    hide ParseValue, PrintString, ParseString, GapText;
    var after := ":" + (GapText(b2) + text);
    StringRoundTrip(name, GapText(b1) + after);
    GapSkipped(b1, after);
    GapSkipped(b2, text);
    assert after[1..] == GapText(b2) + text;
  }

  lemma CommaEntry(acc: seq<Member>, s: string)
    requires ParseMember(Skip(s)).Ok?
    ensures Solid("," + s)
    ensures var r := ParseMember(Skip(s)); ParseMoreMembers(acc, "," + s) == ParseMoreMembers(acc + [r.value], Skip(r.rest))
  {
    hide ParseMember, Skip;
    assert ("," + s)[1..] == s;
  }

  lemma {:induction false} EntriesThen(es: seq<Entry>, acc: seq<Member>, tail: string)
    requires ReadableEntries(es) && Solid(tail)
    ensures var s := EntriesText(es) + tail;
      && Peek(Skip(s)) != '}'
      && var r := ParseMember(Skip(s));
      && r.Ok? && r.value == Members(es)[0]
      && ParseMoreMembers(acc + [r.value], Skip(r.rest)) == ParseMoreMembers(acc + Members(es), tail)
    decreases es
  {
    hide ParseValue, ParseMember, ParseMoreMembers, Skip, Text, GapText, Tree, WellFormed, Gaps, Representable, EntryText, Solid, Follows, Whole;
    var e := es[0];
    var m := Member(e.name, Tree(e.doc));
    var more := EntriesText(es[1..]) + tail;
    var next := if |es| == 1 then tail else "," + more;
    if |es| > 1 {
      EntriesThen(es[1..], acc + [m], tail);
      CommaEntry(acc + [m], more);
    }
    FollowsGap(e.after, next);
    DocRead(e.doc, GapText(e.after) + next);
    EntryRead(e, next);
    EntriesTextSplit(es, tail);
    MembersJoin(acc, es);
  }

  lemma EntriesTextSplit(es: seq<Entry>, tail: string)
    requires es != []
    ensures EntriesText(es) + tail == EntryText(es[0]) + (if |es| == 1 then tail else "," + (EntriesText(es[1..]) + tail))
  {
    hide EntryText;
    if |es| == 1 {
      assert EntryText(es[0]) + [] == EntryText(es[0]);
    } else {
      Regroup(EntryText(es[0]), "," + EntriesText(es[1..]), tail);
      Regroup(",", EntriesText(es[1..]), tail);
    }
  }

  /** A document with blanks anywhere reads as its tree, and what follows is left. */
  lemma {:induction false} DocRead(d: Doc, rest: string)
    requires WellFormed(d) && Gaps(d, Skipped) && Representable(Tree(d)) && Follows(rest)
    ensures ParseValue(Text(d) + rest) == Ok(Tree(d), rest)
    decreases d
  {
    hide ParseValue, ParseArray, ParseObject, ParseMoreItems, ParseMoreMembers, Skip, ItemsText, EntriesText, GapText, Print, Follows;
    match d
    case Scalar(t) => ValueRoundTrip(t, 0, false, rest);
    case EmptyArray(g) =>
      Regroup("[", GapText(g) + "]", rest);
      Regroup(GapText(g), "]", rest);
      ArrayOpens(GapText(g) + ("]" + rest));
      EmptyArrayRead(g, rest);
    case Arr(items) =>
      Regroup("[", ItemsText(items) + "]", rest);
      Regroup(ItemsText(items), "]", rest);
      ArrayOpens(ItemsText(items) + ("]" + rest));
      TreesAre(items);
      BracketIsSolid("]", rest);
      ItemsThen(items, [], "]" + rest);
      ArrayRead(items, rest);
    case EmptyObject(g) =>
      Regroup("{", GapText(g) + "}", rest);
      Regroup(GapText(g), "}", rest);
      BraceOpens(GapText(g) + ("}" + rest));
      EmptyObjectRead(g, rest);
    case Obj(es) =>
      Regroup("{", EntriesText(es) + "}", rest);
      Regroup(EntriesText(es), "}", rest);
      BraceOpens(EntriesText(es) + ("}" + rest));
      MembersAre(es);
      BracketIsSolid("}", rest);
      EntriesThen(es, [], "}" + rest);
      ObjectRead(es, rest);
  }

  lemma BracketIsSolid(b: string, rest: string)
    requires b == "]" || b == "}"
    ensures Solid(b + rest)
  {
  }

  lemma {:induction false} TreesAre(items: seq<Item>)
    ensures forall i :: 0 <= i < |items| ==> Trees(items)[i] == Tree(items[i].doc)
  {
    hide Tree;
    if items != [] { TreesAre(items[1..]); }
  }

  lemma {:induction false} MembersAre(es: seq<Entry>)
    ensures forall i :: 0 <= i < |es| ==> Members(es)[i] == Member(es[i].name, Tree(es[i].doc))
  {
    hide Tree;
    if es != [] { MembersAre(es[1..]); }
  }

  lemma EmptyArrayRead(g: seq<Piece>, rest: string)
    requires Whole(g, Skipped)
    ensures ParseArray(GapText(g) + ("]" + rest)) == Ok([], rest)
  {
    hide GapText;
    GapSkipped(g, "]" + rest);
    assert ("]" + rest)[1..] == rest;
  }

  lemma EmptyObjectRead(g: seq<Piece>, rest: string)
    requires Whole(g, Skipped)
    ensures ParseObject(GapText(g) + ("}" + rest)) == Ok([], rest)
  {
    hide GapText;
    GapSkipped(g, "}" + rest);
    assert ("}" + rest)[1..] == rest;
  }

  lemma ArrayRead(items: seq<Item>, rest: string)
    requires var s := ItemsText(items) + ("]" + rest);
      && Peek(Skip(s)) != ']'
      && var r := ParseValue(Skip(s));
      && r.Ok? && ParseMoreItems([] + [r.value], Skip(r.rest)) == ParseMoreItems([] + Trees(items), "]" + rest)
    ensures ParseArray(ItemsText(items) + ("]" + rest)) == Ok(Trees(items), rest)
  {
    hide ParseValue, Skip, ItemsText;
    var r := ParseValue(Skip(ItemsText(items) + ("]" + rest)));
    assert [] + [r.value] == [r.value] && [] + Trees(items) == Trees(items);
    assert ("]" + rest)[1..] == rest;
  }

  lemma ObjectRead(es: seq<Entry>, rest: string)
    requires var s := EntriesText(es) + ("}" + rest);
      && Peek(Skip(s)) != '}'
      && var r := ParseMember(Skip(s));
      && r.Ok? && ParseMoreMembers([] + [r.value], Skip(r.rest)) == ParseMoreMembers([] + Members(es), "}" + rest)
    ensures ParseObject(EntriesText(es) + ("}" + rest)) == Ok(Members(es), rest)
  {
    hide ParseMember, Skip, EntriesText;
    var r := ParseMember(Skip(EntriesText(es) + ("}" + rest)));
    assert [] + [r.value] == [r.value] && [] + Members(es) == Members(es);
    assert ("}" + rest)[1..] == rest;
  }

  /** cJSON_Parse of a document with blanks anywhere, in front included, gives its tree. */
  lemma ParseReadsSpaced(lead: seq<Piece>, d: Doc, rest: string)
    requires WellFormed(d) && Whole(lead, Skipped) && Gaps(d, Skipped) && Representable(Tree(d)) && Follows(rest)
    ensures Parse(GapText(lead) + (Text(d) + rest)) == Ok(Tree(d), rest)
  {
    hide ParseValue, Skip, Text, GapText, Tree, Gaps, Representable, WellFormed, Follows;
    GapSkipped(lead, Text(d) + rest);
    TextStarts(d);
    SkipStays(Text(d), rest);
    DocRead(d, rest);
  }

  // ---------- texts that fail ----------

  /** What no value starts with. */
  predicate StartsNone(s: string) {
    var c := Peek(s);
    c != 'n' && c != 't' && c != 'f' && c != '\"' && c != '-' && !IsDigit(c) && c != '[' && c != '{'
  }

  lemma NoValueFails(s: string)
    requires StartsNone(s)
    ensures ParseValue(s) == Fail
  {
    if s != [] { NotAWord(s); }
  }

  /** After the items of an array comes the end of the text or anything but a comma and a closing
      bracket: a bracket that is missing, a comma that is missing. */
  lemma UnclosedArrayFails(items: seq<Item>, tail: string)
    requires ReadableItems(items) && Solid(tail) && Peek(tail) != ',' && Peek(tail) != ']'
    ensures ParseValue("[" + (ItemsText(items) + tail)) == Fail
  {
    hide ParseValue, ParseArray, ParseMoreItems, Skip, ItemsText, Trees;
    ItemsThen(items, [], tail);
    ArrayOpens(ItemsText(items) + tail);
    NothingMore(Trees(items), tail);
    ArrayStuck(items, tail, Trees(items));
  }

  lemma NothingMore(acc: seq<Json>, tail: string)
    requires Peek(tail) != ',' && Peek(tail) != ']'
    ensures ParseMoreItems(acc, tail) == Fail && ParseMoreItems([] + acc, tail) == Fail
  {
  }

  lemma ArrayStuck(items: seq<Item>, tail: string, all: seq<Json>)
    requires var s := ItemsText(items) + tail;
      && Peek(Skip(s)) != ']'
      && var r := ParseValue(Skip(s));
      && r.Ok? && ParseMoreItems([] + [r.value], Skip(r.rest)) == ParseMoreItems([] + all, tail) == Fail
    ensures ParseArray(ItemsText(items) + tail) == Fail
  {
    hide ParseValue, Skip, ItemsText, ParseMoreItems;
    var r := ParseValue(Skip(ItemsText(items) + tail));
    assert [] + [r.value] == [r.value];
  }

  /** A comma with no value behind it. */
  lemma TrailingCommaFails(items: seq<Item>, gap: seq<Piece>, tail: string)
    requires ReadableItems(items) && Whole(gap, Skipped) && Solid(tail) && StartsNone(tail)
    ensures ParseValue("[" + (ItemsText(items) + ("," + (GapText(gap) + tail)))) == Fail
  {
    hide ParseValue, ParseArray, ParseMoreItems, Skip, ItemsText, Trees, GapText, StartsNone;
    var s := GapText(gap) + tail;
    GapSkipped(gap, tail);
    SolidSkips(tail);
    NoValueFails(tail);
    CommaFails(Trees(items), s);
    ItemsThen(items, [], "," + s);
    ArrayOpens(ItemsText(items) + ("," + s));
    ArrayStuck(items, "," + s, Trees(items));
  }

  lemma CommaFails(acc: seq<Json>, s: string)
    requires ParseValue(Skip(s)) == Fail
    ensures Solid("," + s) && ParseMoreItems([] + acc, "," + s) == Fail
  {
    hide ParseValue, Skip;
    assert ("," + s)[1..] == s;
  }

  /** The same for the members of an object. */
  lemma UnclosedObjectFails(es: seq<Entry>, tail: string)
    requires ReadableEntries(es) && Solid(tail) && Peek(tail) != ',' && Peek(tail) != '}'
    ensures ParseValue("{" + (EntriesText(es) + tail)) == Fail
  {
    hide ParseMember, ParseObject, ParseMoreMembers, Skip, EntriesText, Members;
    EntriesThen(es, [], tail);
    BraceOpens(EntriesText(es) + tail);
    NoMoreMembers(Members(es), tail);
    ObjectStuck(es, tail, Members(es));
  }

  lemma NoMoreMembers(acc: seq<Member>, tail: string)
    requires Peek(tail) != ',' && Peek(tail) != '}'
    ensures ParseMoreMembers([] + acc, tail) == Fail
  {
  }

  lemma ObjectStuck(es: seq<Entry>, tail: string, all: seq<Member>)
    requires var s := EntriesText(es) + tail;
      && Peek(Skip(s)) != '}'
      && var r := ParseMember(Skip(s));
      && r.Ok? && ParseMoreMembers([] + [r.value], Skip(r.rest)) == ParseMoreMembers([] + all, tail) == Fail
    ensures ParseObject(EntriesText(es) + tail) == Fail
  {
    hide ParseMember, Skip, EntriesText, ParseMoreMembers;
    var r := ParseMember(Skip(EntriesText(es) + tail));
    assert [] + [r.value] == [r.value];
  }

  /** A name with anything but a colon behind it, in the first member or after others. */
  lemma MissingColonFails(es: seq<Entry>, gap: seq<Piece>, name: string, colon: seq<Piece>, tail: string)
    requires (es != [] ==> ReadableEntries(es)) && Whole(gap, Skipped) && Whole(colon, Skipped) && '\0' !in name
    requires Solid(tail) && Peek(tail) != ':'
    ensures var last := GapText(gap) + (PrintString(name) + (GapText(colon) + tail));
      ParseValue("{" + if es == [] then last else EntriesText(es) + ("," + last)) == Fail
  {
    hide ParseMember, ParseObject, ParseMoreMembers, Skip, EntriesText, Members, GapText, PrintString, ReadableEntries;
    var rest := GapText(colon) + tail;
    var last := GapText(gap) + (PrintString(name) + rest);
    GapSkipped(gap, PrintString(name) + rest);
    NameStarts(name);
    SkipStays(PrintString(name), rest);
    NoColonFails(name, colon, tail);
    if es == [] {
      BraceOpens(last);
      FirstMemberFails(last);
    } else {
      CommaEntryFails(Members(es), last);
      ReadablesThen(es, "," + last);
      BraceOpens(EntriesText(es) + ("," + last));
      ObjectStuck(es, "," + last, Members(es));
    }
  }

  lemma ReadablesThen(es: seq<Entry>, tail: string)
    requires ReadableEntries(es) && Solid(tail)
    ensures var s := EntriesText(es) + tail;
      && Peek(Skip(s)) != '}'
      && var r := ParseMember(Skip(s));
      && r.Ok?
      && ParseMoreMembers([] + [r.value], Skip(r.rest)) == ParseMoreMembers([] + Members(es), tail)
  {
    hide ParseMember, ParseMoreMembers, Skip, EntriesText, Members;
    EntriesThen(es, [], tail);
  }

  lemma NoColonFails(name: string, colon: seq<Piece>, tail: string)
    requires '\0' !in name && Whole(colon, Skipped) && Solid(tail) && Peek(tail) != ':'
    ensures ParseMember(PrintString(name) + (GapText(colon) + tail)) == Fail
  {
    hide ParseValue, PrintString, ParseString, GapText;
    StringRoundTrip(name, GapText(colon) + tail);
    GapSkipped(colon, tail);
    SolidSkips(tail);
  }

  lemma FirstMemberFails(s: string)
    requires ParseMember(Skip(s)) == Fail && Peek(Skip(s)) != '}'
    ensures ParseObject(s) == Fail
  {
    hide ParseMember, Skip;
  }

  lemma CommaEntryFails(acc: seq<Member>, s: string)
    requires ParseMember(Skip(s)) == Fail
    ensures Solid("," + s) && ParseMoreMembers([] + acc, "," + s) == Fail
  {
    hide ParseMember, Skip;
    assert ("," + s)[1..] == s;
  }

  // ---------- taking out blanks and comments ----------

  /** What the minifier takes out: its own white space, a line comment with its line break, a block
      comment that ends where it says. */
  predicate Vanishing(p: Piece) {
    match p
    case Blank(c) => c in {' ', '\t', '\r', '\n'}
    case Line(s) => '\n' !in s
    case Block(s) => (s != [] ==> s[0] != '/') && forall i :: 0 <= i < |s| - 1 ==> !(s[i] == '*' && s[i + 1] == '/')
  }

  lemma {:induction false} LineEnds(s: string, rest: string)
    requires '\n' !in s
    ensures SkipLine(s + ("\n" + rest)) == "\n" + rest
  {
    var text := s + ("\n" + rest);
    if s == [] {
      assert text == "\n" + rest;
    } else {
      LineEnds(s[1..], rest);
      assert text[1..] == s[1..] + ("\n" + rest);
    }
  }

  lemma {:induction false} BlockEnds(a: string, rest: string)
    requires forall i :: 0 <= i < |a| - 1 ==> !(a[i] == '*' && a[i + 1] == '/')
    ensures ToCommentEnd(a + ("*/" + rest)) == |a|
  {
    var text := a + ("*/" + rest);
    if a == [] {
      assert text == "*/" + rest && text[..2] == "*/";
    } else {
      BlockEnds(a[1..], rest);
      assert text[1..] == a[1..] + ("*/" + rest);
      assert text[..2] == [a[0], if |a| > 1 then a[1] else '*'];
    }
  }

  lemma LineVanishes(s: string, rest: string)
    requires '\n' !in s
    ensures Minify("//" + (s + "\n") + rest) == Minify(rest)
  {
    hide Minify, SkipLine;
    var text := "//" + (s + "\n") + rest;
    assert text == ("//" + s) + ("\n" + rest) && text[..2] == "//";
    HeadLine(text);
    LineEnds("//" + s, rest);
    PassSpace('\n', rest);
  }

  lemma BlockVanishes(s: string, rest: string)
    requires Vanishing(Block(s))
    ensures Minify("/*" + (s + "*/") + rest) == Minify(rest)
  {
    hide Minify, ToCommentEnd;
    var text := "/*" + (s + "*/") + rest;
    var a := "*" + s;
    assert text[..2] == "/*" && text[1..] == a + ("*/" + rest);
    BlockEnds(a, rest);
    CommentAtHead(text);
    assert text[|s| + 4..] == rest;
  }

  lemma PieceVanishes(p: Piece, rest: string)
    requires Vanishing(p)
    ensures Minify(PieceText(p) + rest) == Minify(rest)
  {
    hide Minify;
    match p
    case Blank(c) => PassSpace(c, rest);
    case Line(s) => LineVanishes(s, rest);
    case Block(s) => BlockVanishes(s, rest);
  }

  lemma {:induction false} GapVanishes(g: seq<Piece>, rest: string)
    requires Whole(g, Vanishing)
    ensures Minify(GapText(g) + rest) == Minify(rest)
  {
    hide Minify, PieceText, Vanishing;
    if g == [] {
      assert GapText(g) + rest == rest;
    } else {
      GapVanishes(g[1..], rest);
      PieceVanishes(g[0], GapText(g[1..]) + rest);
      Regroup(PieceText(g[0]), GapText(g[1..]), rest);
    }
  }

  /** Unformatted items and members, without the empty gaps of the printer. */
  lemma PlainItems(ts: seq<Json>, depth: nat, rest: string)
    requires ts != []
    ensures PrintItems(ts, depth, false) + rest ==
      Print(ts[0], depth, false) + (if |ts| == 1 then rest else "," + (PrintItems(ts[1..], depth, false) + rest))
  {
    hide Print;
    if |ts| == 1 {
      assert PrintItems(ts, depth, false) == Print(ts[0], depth, false);
    } else {
      var more := PrintItems(ts[1..], depth, false);
      assert PrintItems(ts, depth, false) == Print(ts[0], depth, false) + ("," + more);
      Regroup(Print(ts[0], depth, false), "," + more, rest);
      Regroup(",", more, rest);
    }
  }

  lemma PlainMembers(ms: seq<Member>, depth: nat, rest: string)
    requires ms != []
    ensures PrintMembers(ms, depth, false) + rest ==
      PrintString(ms[0].name) + (":" + (Print(ms[0].value, depth, false)
        + (if |ms| == 1 then rest else "," + (PrintMembers(ms[1..], depth, false) + rest))))
  {
    hide Print, PrintString;
    var name, v, more := PrintString(ms[0].name), Print(ms[0].value, depth, false), PrintMembers(ms[1..], depth, false);
    var comma := if |ms| == 1 then [] else ",";
    assert PrintMembers(ms, depth, false) == name + ":" + v + comma + more;
    Regroup(name + ":" + v + comma, more, rest);
    Regroup(name + ":" + v, comma, more + rest);
    Regroup(name + ":", v, comma + (more + rest));
    Regroup(name, ":", v + (comma + (more + rest)));
    if |ms| == 1 { assert more == [] && comma + (more + rest) == rest; }
  }

  lemma {:induction false} ItemsMinified(items: seq<Item>, depth: nat, tail: string)
    requires items != [] && Minify(tail).Done?
    requires forall i :: 0 <= i < |items| ==>
      WellFormed(items[i].doc) && Gaps(items[i].doc, Vanishing) && Whole(items[i].before, Vanishing) && Whole(items[i].after, Vanishing)
    ensures Minify(ItemsText(items) + tail) == Done(PrintItems(Trees(items), depth, false) + Minify(tail).text)
    decreases items
  {
    hide Minify, Text, GapText, Tree, WellFormed, Gaps, Print, PrintItems, Whole;
    var i := items[0];
    var more := ItemsText(items[1..]) + tail;
    var next := if |items| == 1 then tail else "," + more;
    PlainItems(Trees(items), depth, Minify(tail).text);
    if |items| > 1 {
      ItemsMinified(items[1..], depth, tail);
      CopyOrdinary(",", more);
    } else {
      assert items[1..] == [];
    }
    ItemsTextSplit(items, tail);
    Regroup(GapText(i.before), Text(i.doc) + GapText(i.after), next);
    Regroup(Text(i.doc), GapText(i.after), next);
    GapVanishes(i.after, next);
    DocMinified(i.doc, depth, GapText(i.after) + next);
    GapVanishes(i.before, Text(i.doc) + (GapText(i.after) + next));
  }

  lemma {:induction false} EntriesMinified(es: seq<Entry>, depth: nat, tail: string)
    requires es != [] && Minify(tail).Done?
    requires forall i :: 0 <= i < |es| ==>
      && WellFormed(es[i].doc) && Gaps(es[i].doc, Vanishing)
      && Whole(es[i].before, Vanishing) && Whole(es[i].colon, Vanishing) && Whole(es[i].value, Vanishing) && Whole(es[i].after, Vanishing)
    ensures Minify(EntriesText(es) + tail) == Done(PrintMembers(Members(es), depth, false) + Minify(tail).text)
    decreases es
  {
    hide Minify, Text, GapText, Tree, WellFormed, Gaps, Print, PrintMembers, PrintString, Whole, EntryText;
    var e := es[0];
    var more := EntriesText(es[1..]) + tail;
    var next := if |es| == 1 then tail else "," + more;
    PlainMembers(Members(es), depth, Minify(tail).text);
    if |es| > 1 {
      EntriesMinified(es[1..], depth, tail);
      CopyOrdinary(",", more);
    } else {
      assert es[1..] == [];
    }
    EntriesTextSplit(es, tail);
    EntrySplit(e, next);
    var value := Text(e.doc) + (GapText(e.after) + next);
    var colon := ":" + (GapText(e.value) + value);
    GapVanishes(e.after, next);
    DocMinified(e.doc, depth, GapText(e.after) + next);
    GapVanishes(e.value, value);
    CopyOrdinary(":", GapText(e.value) + value);
    GapVanishes(e.colon, colon);
    MinifyString(e.name, GapText(e.colon) + colon);
    GapVanishes(e.before, PrintString(e.name) + (GapText(e.colon) + colon));
  }

  /** Minifying a document with blanks and comments anywhere leaves the unformatted print of its tree. */
  lemma {:induction false} DocMinified(d: Doc, depth: nat, rest: string)
    requires WellFormed(d) && Gaps(d, Vanishing) && Minify(rest).Done?
    ensures Minify(Text(d) + rest) == Done(Print(Tree(d), depth, false) + Minify(rest).text)
    decreases d
  {
    hide Minify, ItemsText, EntriesText, GapText, PrintItems, PrintMembers, Trees, Members;
    var left := Minify(rest).text;
    match d
    case Scalar(t) => MinifyValue(t, 0, false, rest);
    case EmptyArray(g) =>
      Regroup("[", GapText(g) + "]", rest);
      Regroup(GapText(g), "]", rest);
      CopyOrdinary("]", rest);
      GapVanishes(g, "]" + rest);
      CopyOrdinary("[", GapText(g) + ("]" + rest));
      assert "[" + ("]" + left) == "[]" + left;
    case Arr(items) =>
      Regroup("[", ItemsText(items) + "]", rest);
      Regroup(ItemsText(items), "]", rest);
      CopyOrdinary("]", rest);
      ItemsMinified(items, depth + 1, "]" + rest);
      CopyOrdinary("[", ItemsText(items) + ("]" + rest));
      ArrayText(Trees(items), depth, false, left);
    case EmptyObject(g) =>
      Regroup("{", GapText(g) + "}", rest);
      Regroup(GapText(g), "}", rest);
      CopyOrdinary("}", rest);
      GapVanishes(g, "}" + rest);
      CopyOrdinary("{", GapText(g) + ("}" + rest));
      PlainObjectText([], depth, left);
      assert [] + ("}" + left) == "}" + left;
    case Obj(es) =>
      Regroup("{", EntriesText(es) + "}", rest);
      Regroup(EntriesText(es), "}", rest);
      CopyOrdinary("}", rest);
      EntriesMinified(es, depth + 1, "}" + rest);
      CopyOrdinary("{", EntriesText(es) + ("}" + rest));
      PlainObjectText(Members(es), depth, left);
  }

  /** So for a whole text, gaps in front and behind included: what is left parses to the tree. */
  lemma MinifyStripsComments(lead: seq<Piece>, d: Doc, trail: seq<Piece>)
    requires WellFormed(d) && Whole(lead, Vanishing) && Gaps(d, Vanishing) && Whole(trail, Vanishing)
    ensures Minify(GapText(lead) + (Text(d) + GapText(trail))) == Done(Print(Tree(d), 0, false))
    ensures Representable(Tree(d)) ==> Parse(Print(Tree(d), 0, false)) == Ok(Tree(d), [])
  {
    hide Minify, Parse, Text, GapText, Tree, Gaps, Representable, WellFormed, Print;
    NothingLeft();
    GapVanishes(trail, []);
    assert GapText(trail) + [] == GapText(trail);
    DocMinified(d, 0, GapText(trail));
    GapVanishes(lead, Text(d) + GapText(trail));
    assert Print(Tree(d), 0, false) + [] == Print(Tree(d), 0, false);
    if Representable(Tree(d)) { ParseUndoesPrint(Tree(d), false); }
  }
}

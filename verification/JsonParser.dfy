/** The recursive parser filling items on the heap. A new child is linked into its parent after it is
    parsed, where the code links it before. */
module JsonParser {
  import opened JsonSpec
  import opened JsonTree
  import opened Options
  import JsonStrings
  import opened JsonRoundTrip

  // ---------- what a tree looks like as items ----------

  function NodeOf(t: Json, name: Option<string>): Node
    decreases t, 1
  {
    match t
    case False => Node(0, 0, None, name, [])
    case True => Node(1, 1, None, name, [])
    case Null => Node(2, 0, None, name, [])
    case Number(n) => Node(3, n, None, name, [])
    case String(s) => Node(4, 0, Some(s), name, [])
    case Array(items) => Node(5, 0, None, name, ItemNodes(items))
    case Object(ms) => Node(6, 0, None, name, MemberNodes(ms))
  }

  function ItemNodes(items: seq<Json>): (ns: seq<Node>)
    ensures |ns| == |items| && forall i :: 0 <= i < |items| ==> ns[i] == NodeOf(items[i], None)
    decreases items, 0
  {
    if items == [] then [] else [NodeOf(items[0], None)] + ItemNodes(items[1..])
  }

  function MemberNodes(ms: seq<Member>): (ns: seq<Node>)
    ensures |ns| == |ms| && forall i :: 0 <= i < |ms| ==> ns[i] == NodeOf(ms[i].value, Some(ms[i].name))
    decreases ms, 0
  {
    if ms == [] then [] else [NodeOf(ms[0].value, Some(ms[0].name))] + MemberNodes(ms[1..])
  }

  /** The type of an item, as cJSON.h numbers the types, and the int beside it. */
  lemma ItemTypes(t: Json, name: Option<string>)
    ensures var n := NodeOf(t, name);
      && (n.kind == 0 <==> t.False?) && (n.kind == 1 <==> t.True?) && (n.kind == 2 <==> t.Null?)
      && (n.kind == 3 <==> t.Number?) && (n.kind == 4 <==> t.String?) && (n.kind == 5 <==> t.Array?) && (n.kind == 6 <==> t.Object?)
      && n.number == (if t.Number? then t.n else if t.True? then 1 else 0) && n.name == name
      && n.text == (if t.String? then Some(t.s) else None)
  {
  }

  /** No two trees look alike. */
  lemma {:induction false} NodesTellTreesApart(t: Json, u: Json, name: Option<string>)
    requires NodeOf(t, name) == NodeOf(u, name)
    ensures t == u
    decreases t, 1
  {
    hide ItemNodes, MemberNodes;
    match t
    case Array(items) => ItemsApart(items, u.items);
    case Object(ms) => MembersApart(ms, u.members);
    case _ =>
  }

  lemma {:induction false} ItemsApart(items: seq<Json>, us: seq<Json>)
    requires ItemNodes(items) == ItemNodes(us)
    ensures items == us
    decreases items, 0
  {
    hide NodeOf, ItemNodes;
    assert |ItemNodes(items)| == |ItemNodes(us)|;
    forall i | 0 <= i < |items| ensures items[i] == us[i] {
      assert ItemNodes(items)[i] == ItemNodes(us)[i];
      NodesTellTreesApart(items[i], us[i], None);
    }
  }

  lemma {:induction false} MembersApart(ms: seq<Member>, us: seq<Member>)
    requires MemberNodes(ms) == MemberNodes(us)
    ensures ms == us
    decreases ms, 0
  {
    hide NodeOf, MemberNodes;
    assert |MemberNodes(ms)| == |MemberNodes(us)|;
    forall i | 0 <= i < |ms| ensures ms[i] == us[i] {
      assert MemberNodes(ms)[i] == MemberNodes(us)[i];
      NodeName(ms[i].value, Some(ms[i].name));
      NodeName(us[i].value, Some(us[i].name));
      NodesTellTreesApart(ms[i].value, us[i].value, Some(ms[i].name));
    }
  }

  lemma NodeName(t: Json, name: Option<string>)
    ensures NodeOf(t, name).name == name
  {
  }

  // ---------- the small parse functions ----------

  method SkipSpace(s: string) returns (r: string)
    ensures r == Skip(s)
  {
    var i := 0;
    assert s[0..] == s;
    while i < |s| && s[i] as nat <= 32
      invariant i <= |s| && Skip(s[i..]) == Skip(s)
    {
      assert s[i..][1..] == s[i + 1..];
      i := i + 1;
    }
    r := s[i..];
  }

  /** parse_number, where the number is a C int. */
  method ReadNumber(num: string) returns (n: int, rest: string)
    requires (Peek(num) == '-' || IsDigit(Peek(num))) && ParseNumber(num).Ok?
    ensures ParseNumber(num) == Ok(n, rest)
  {
    var sign := 1;
    n, rest := 0, num;
    if Peek(rest) == '-' { sign, rest := -1, rest[1..]; }
    if Peek(rest) == '0' { rest := rest[1..]; }
    if '1' <= Peek(rest) <= '9' {
      ghost var all := ScanDigits(rest, 0);
      while IsDigit(Peek(rest))
        invariant n >= 0 && ScanDigits(rest, n) == all
        decreases |rest|
      {
        n, rest := n * 10 + (rest[0] - '0') as int, rest[1..];
      }
    }
    n := sign * n;
  }

  // ---------- the parser ----------

  /** A new item, or one that so far only has a name. */
  ghost predicate Blank(item: Item)
    reads item, item.Repr
  {
    item.Valid() && item.Repr == {item} && item.Tree() == Node(item.kind, 0, None, item.name, [])
  }

  /** What a parse function leaves when the specification says p. */
  ghost predicate Filled<T>(rest: Option<string>, p: Parsed<T>)
  {
    match p
    case Ok(_, r) => rest == Some(r)
    case _ => rest == None
  }

  method ParseValueInto(item: Item, value: string) returns (rest: Option<string>)
    requires Blank(item) && !ParseValue(value).Beyond?
    modifies item
    ensures Filled(rest, ParseValue(value))
    ensures ParseValue(value).Ok? ==> item.Valid() && item.Tree() == NodeOf(ParseValue(value).value, old(item.name))
    ensures fresh(item.Repr - {item}) && item.next == old(item.next) && item.prev == old(item.prev)
    decreases |value|, 2
  {
    if StartsWith(value, "null") {
      item.kind := 2;
      return Some(value[4..]);
    }
    if StartsWith(value, "false") {
      item.kind := 0;
      return Some(value[5..]);
    }
    if StartsWith(value, "true") {
      item.kind, item.number := 1, 1;
      return Some(value[4..]);
    }
    if Peek(value) == '\"' {
      var r := JsonStrings.ParseStringLiteral(value);
      if r.Fail? { return None; }
      item.kind, item.text := 4, Some(r.value);
      return Some(r.rest);
    }
    if Peek(value) == '-' || IsDigit(Peek(value)) {
      var n, r := ReadNumber(value);
      item.kind, item.number := 3, n;
      return Some(r);
    }
    if Peek(value) == '[' {
      rest := ParseArrayInto(item, value);
      return;
    }
    if Peek(value) == '{' {
      rest := ParseObjectInto(item, value);
      return;
    }
    rest := None;
  }

  lemma NoNodes()
    ensures ItemNodes([]) == [] && MemberNodes([]) == []
  {
  }

  lemma ItemNodesSnoc(items: seq<Json>, v: Json)
    ensures ItemNodes(items + [v]) == ItemNodes(items) + [NodeOf(v, None)]
  {
    hide NodeOf, ItemNodes;
  }

  lemma MemberNodesSnoc(ms: seq<Member>, m: Member)
    ensures MemberNodes(ms + [m]) == MemberNodes(ms) + [NodeOf(m.value, Some(m.name))]
  {
    hide NodeOf, MemberNodes;
  }

  /** item holds the children ns so far, and last is the last of them. */
  ghost predicate Holding(item: Item, kind: int, name: Option<string>, ns: seq<Node>, last: Item?)
    reads item, item.Repr
  {
    && item.Valid() && item.Tree() == Node(kind, 0, None, name, ns)
    && last == if item.kids == [] then null else item.kids[|item.kids| - 1]
  }

  /** A child parsed and put behind the others. */
  method AddChild(item: Item, last: Item?, child: Item, ghost kind: int, ghost name: Option<string>, ghost ns: seq<Node>, ghost n: Node)
    requires Holding(item, kind, name, ns, last)
    requires child.Valid() && child.Detached() && child.Repr !! item.Repr && child.Tree() == n
    modifies item.Repr, child
    ensures Holding(item, kind, name, ns + [n], child)
    ensures item.Repr == old(item.Repr + child.Repr) && item.next == old(item.next) && item.prev == old(item.prev)
  {
    item.Extend(last, child);
  }

  method ParseItemInto(item: Item, last: Item?, value: string, ghost items: seq<Json>, ghost name: Option<string>)
    returns (child: Item?, rest: Option<string>)
    requires Holding(item, 5, name, ItemNodes(items), last)
    requires !ParseValue(value).Beyond?
    modifies item.Repr
    ensures Filled(rest, ParseValue(value))
    ensures var r := ParseValue(value); r.Ok? ==> Holding(item, 5, name, ItemNodes(items + [r.value]), child)
    ensures fresh(item.Repr - old(item.Repr)) && item.next == old(item.next) && item.prev == old(item.prev)
    decreases |value|, 3
  {
    hide NodeOf, ItemNodes;
    child := new Item();
    rest := ParseValueInto(child, value);
    if rest.Some? {
      ItemNodesSnoc(items, ParseValue(value).value);
      AddChild(item, last, child, 5, name, ItemNodes(items), NodeOf(ParseValue(value).value, None));
    }
  }

  /** The loop of parse_array. */
  method ParseMoreInto(item: Item, last0: Item?, value: string, ghost items0: seq<Json>, ghost name: Option<string>)
    returns (rest: Option<string>)
    requires Holding(item, 5, name, ItemNodes(items0), last0)
    requires !ParseMoreItems(items0, value).Beyond?
    modifies item.Repr
    ensures Filled(rest, ParseMoreItems(items0, value))
    ensures var r := ParseMoreItems(items0, value); r.Ok? ==> item.Valid() && item.Tree() == Node(5, 0, None, name, ItemNodes(r.value))
    ensures fresh(item.Repr - old(item.Repr)) && item.next == old(item.next) && item.prev == old(item.prev)
    decreases |value|, 4
  {
    hide NodeOf, ItemNodes;
    var v, last := value, last0;
    ghost var items := items0;
    while Peek(v) == ','
      invariant Holding(item, 5, name, ItemNodes(items), last) && fresh(item.Repr - old(item.Repr))
      invariant ParseMoreItems(items, v) == ParseMoreItems(items0, value) && |v| <= |value|
      invariant item.next == old(item.next) && item.prev == old(item.prev)
      decreases |v|
    {
      v := SkipSpace(v[1..]);
      ghost var p := ParseValue(v);
      last, rest := ParseItemInto(item, last, v, items, name);
      if rest.None? { return; }
      items := items + [p.value];
      v := SkipSpace(rest.value);
    }
    rest := if Peek(v) == ']' then Some(v[1..]) else None;
  }

  method ParseArrayInto(item: Item, value: string) returns (rest: Option<string>)
    requires Peek(value) == '[' && Blank(item) && !ParseArray(value[1..]).Beyond?
    modifies item
    ensures Filled(rest, ParseArray(value[1..]))
    ensures var r := ParseArray(value[1..]); r.Ok? ==> item.Valid() && item.Tree() == NodeOf(Array(r.value), old(item.name))
    ensures fresh(item.Repr - {item}) && item.next == old(item.next) && item.prev == old(item.prev)
    decreases |value|, 1
  {
    hide ParseValue, ParseMoreItems, ItemNodes;
    NoNodes();
    item.kind := 5;
    var v := SkipSpace(value[1..]);
    if Peek(v) == ']' {
      return Some(v[1..]);
    }
    var last: Item?;
    ghost var name := item.name;
    last, rest := ParseItemInto(item, null, v, [], name);
    if rest.Some? {
      v := SkipSpace(rest.value);
      ghost var first := ParseValue(Skip(value[1..])).value;
      assert [] + [first] == [first];
      rest := ParseMoreInto(item, last, v, [first], name);
    }
  }

  /** A name, a colon and a value in a new item. */
  method ParseNamed(value: string) returns (child: Item, rest: Option<string>)
    requires !ParseMember(value).Beyond?
    ensures Filled(rest, ParseMember(value)) && fresh(child) && fresh(child.Repr)
    ensures var r := ParseMember(value); r.Ok? ==> child.Valid() && child.Detached() && child.Tree() == NodeOf(r.value.value, Some(r.value.name))
    decreases |value|, 2
  {
    hide NodeOf, ParseValue, ParseString;
    rest := None;
    child := new Item();
    var key := JsonStrings.ParseStringLiteral(value);
    if key.Fail? { return; }
    child.kind, child.name := 4, Some(key.value);
    var v := SkipSpace(key.rest);
    if Peek(v) == ':' {
      v := SkipSpace(v[1..]);
      rest := ParseValueInto(child, v);
    }
  }

  /** One member parsed and put behind the others. */
  method ParseMemberInto(item: Item, last: Item?, value: string, ghost ms: seq<Member>, ghost name: Option<string>)
    returns (child: Item?, rest: Option<string>)
    requires Holding(item, 6, name, MemberNodes(ms), last)
    requires !ParseMember(value).Beyond?
    modifies item.Repr
    ensures Filled(rest, ParseMember(value))
    ensures var r := ParseMember(value); r.Ok? ==> Holding(item, 6, name, MemberNodes(ms + [r.value]), child)
    ensures fresh(item.Repr - old(item.Repr)) && item.next == old(item.next) && item.prev == old(item.prev)
    decreases |value|, 3
  {
    hide NodeOf, MemberNodes;
    child, rest := ParseNamed(value);
    if rest.Some? {
      ghost var m := ParseMember(value).value;
      MemberNodesSnoc(ms, m);
      AddChild(item, last, child, 6, name, MemberNodes(ms), NodeOf(m.value, Some(m.name)));
    }
  }

  /** The loop of parse_object. */
  method ParseMoreMembersInto(item: Item, last0: Item?, value: string, ghost ms0: seq<Member>, ghost name: Option<string>)
    returns (rest: Option<string>)
    requires Holding(item, 6, name, MemberNodes(ms0), last0)
    requires !ParseMoreMembers(ms0, value).Beyond?
    modifies item.Repr
    ensures Filled(rest, ParseMoreMembers(ms0, value))
    ensures var r := ParseMoreMembers(ms0, value); r.Ok? ==> item.Valid() && item.Tree() == Node(6, 0, None, name, MemberNodes(r.value))
    ensures fresh(item.Repr - old(item.Repr)) && item.next == old(item.next) && item.prev == old(item.prev)
    decreases |value|, 4
  {
    hide NodeOf, MemberNodes;
    var v, last := value, last0;
    ghost var ms := ms0;
    while Peek(v) == ','
      invariant Holding(item, 6, name, MemberNodes(ms), last) && fresh(item.Repr - old(item.Repr))
      invariant ParseMoreMembers(ms, v) == ParseMoreMembers(ms0, value) && |v| <= |value|
      invariant item.next == old(item.next) && item.prev == old(item.prev)
      decreases |v|
    {
      v := SkipSpace(v[1..]);
      ghost var p := ParseMember(v);
      last, rest := ParseMemberInto(item, last, v, ms, name);
      if rest.None? { return; }
      ms := ms + [p.value];
      v := SkipSpace(rest.value);
    }
    rest := if Peek(v) == '}' then Some(v[1..]) else None;
  }

  method ParseObjectInto(item: Item, value: string) returns (rest: Option<string>)
    requires Peek(value) == '{' && Blank(item) && !ParseObject(value[1..]).Beyond?
    modifies item
    ensures Filled(rest, ParseObject(value[1..]))
    ensures var r := ParseObject(value[1..]); r.Ok? ==> item.Valid() && item.Tree() == NodeOf(Object(r.value), old(item.name))
    ensures fresh(item.Repr - {item}) && item.next == old(item.next) && item.prev == old(item.prev)
    decreases |value|, 1
  {
    hide ParseMember, ParseMoreMembers, MemberNodes;
    NoNodes();
    item.kind := 6;
    var v := SkipSpace(value[1..]);
    if Peek(v) == '}' {
      return Some(v[1..]);
    }
    var last: Item?;
    ghost var name := item.name;
    last, rest := ParseMemberInto(item, null, v, [], name);
    if rest.Some? {
      v := SkipSpace(rest.value);
      ghost var first := ParseMember(Skip(value[1..])).value;
      assert [] + [first] == [first];
      rest := ParseMoreMembersInto(item, last, v, [first], name);
    }
  }

  /** cJSON_Parse. */
  method ParseText(value: string) returns (c: Item?)
    requires !Parse(value).Beyond?
    ensures c == null <==> Parse(value).Fail?
    ensures c != null ==> c.Valid() && c.Detached() && fresh(c.Repr) && c.Tree() == NodeOf(Parse(value).value, None)
  {
    c := new Item();
    var v := SkipSpace(value);
    var rest := ParseValueInto(c, v);
    if rest.None? { c := null; }
  }

  /** The text of either printer parsed onto the heap gives the items of the printed tree, and no
      others: the items of two trees are never alike. */
  method ParsePrinted(t: Json, fmt: bool) returns (c: Item?)
    requires Representable(t)
    ensures c != null && c.Valid() && fresh(c.Repr)
    ensures forall u :: c.Tree() == NodeOf(u, None) <==> u == t
  {
    ParseUndoesPrint(t, fmt);
    c := ParseText(Print(t, 0, fmt));
    forall u | c.Tree() == NodeOf(u, None) ensures u == t {
      NodesTellTreesApart(t, u, None);
    }
  }
}

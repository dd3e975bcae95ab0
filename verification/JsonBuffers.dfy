/** The printer over buffers: every composed text is measured first, allocated, and then written
    through a moving pointer. The measure never undercounts, so every write falls inside. */
module JsonBuffers {
  import opened JsonSpec
  import opened Sequences

  // ---------- measures ----------

  /** The characters with a two-character escape. */
  predicate ShortEscape(c: char) {
    c == '\"' || c == '\\' || c == 8 as char || c == 12 as char || c == '\n' || c == '\r' || c == '\t'
  }

  /** One turn of the measuring loop of print_string_ptr. */
  function CharRoom(c: char): nat {
    if ShortEscape(c) then 2
    else if c as nat < 32 then 6
    else 1
  }

  function StringRoom(s: string): nat {
    if s == [] then 0 else CharRoom(s[0]) + StringRoom(s[1..])
  }

  function Flag(fmt: bool): nat { if fmt then 1 else 0 }

  /** What print_array adds for its entries. */
  function ArrayRoom(entries: seq<string>, fmt: bool): nat {
    if entries == [] then 0 else |entries[0]| + 2 + Flag(fmt) + ArrayRoom(entries[1..], fmt)
  }

  /** What print_object adds for its entries, one level deeper. */
  function ObjectRoom(names: seq<string>, entries: seq<string>, depth: nat, fmt: bool): nat
    requires |names| == |entries|
  {
    if entries == [] then 0
    else |entries[0]| + |names[0]| + 2 + (if fmt then 2 + depth else 0) + ObjectRoom(names[1..], entries[1..], depth, fmt)
  }

  /** The measured length of a string is its printed length, without quotes and NUL. */
  lemma {:induction false} StringRoomIsExact(s: string)
    ensures StringRoom(s) == |Escape(s)|
    decreases |s|
  {
    if s != [] {
      StringRoomIsExact(s[1..]);
    }
  }

  // ---------- texts composed from entries ----------

  /** Entries joined as print_array writes them. */
  function JoinArray(entries: seq<string>, fmt: bool): (r: string)
    ensures |r| + 2 + Flag(fmt) <= ArrayRoom(entries, fmt) || entries == []
  {
    if entries == [] then []
    else entries[0] + (if |entries| == 1 then [] else "," + If(fmt, " ") + JoinArray(entries[1..], fmt))
  }

  function JoinObject(names: seq<string>, entries: seq<string>, depth: nat, fmt: bool): (r: string)
    requires |names| == |entries|
    ensures |r| + 1 <= ObjectRoom(names, entries, depth, fmt) || entries == []
  {
    if entries == [] then []
    else If(fmt, Tabs(depth)) + names[0] + ":" + If(fmt, "\t") + entries[0]
         + (if |entries| == 1 then [] else ",") + If(fmt, "\n") + JoinObject(names[1..], entries[1..], depth, fmt)
  }

  /** The printed children of an array, in order. */
  function Texts(items: seq<Json>, depth: nat, fmt: bool): (r: seq<string>)
    ensures |r| == |items|
  {
    if items == [] then [] else [Print(items[0], depth, fmt)] + Texts(items[1..], depth, fmt)
  }

  lemma {:induction false} JoinArrayIsPrintItems(items: seq<Json>, depth: nat, fmt: bool)
    ensures JoinArray(Texts(items, depth, fmt), fmt) == PrintItems(items, depth, fmt)
    decreases |items|
  {
    hide Print;
    if items != [] {
      JoinArrayIsPrintItems(items[1..], depth, fmt);
      assert Texts(items, depth, fmt)[1..] == Texts(items[1..], depth, fmt);
    }
  }

  function Names(ms: seq<Member>): (r: seq<string>)
    ensures |r| == |ms|
  {
    if ms == [] then [] else [PrintString(ms[0].name)] + Names(ms[1..])
  }

  function Values(ms: seq<Member>): (r: seq<Json>)
    ensures |r| == |ms|
  {
    if ms == [] then [] else [ms[0].value] + Values(ms[1..])
  }

  lemma {:induction false} JoinObjectIsPrintMembers(ms: seq<Member>, depth: nat, fmt: bool)
    ensures JoinObject(Names(ms), Texts(Values(ms), depth, fmt), depth, fmt) == PrintMembers(ms, depth, fmt)
    decreases |ms|
  {
    hide Print, PrintString, Tabs;
    if ms != [] {
      JoinObjectIsPrintMembers(ms[1..], depth, fmt);
      assert Names(ms)[1..] == Names(ms[1..]);
      assert Values(ms)[1..] == Values(ms[1..]);
      assert Texts(Values(ms), depth, fmt)[1..] == Texts(Values(ms[1..]), depth, fmt);
    }
  }

  // ---------- writing through the pointer ----------

  /** The buffer holds done, and ptr stands right behind it. */
  ghost predicate At(out: array<char>, ptr: nat, done: string)
    reads out
  {
    ptr == |done| <= out.Length && out[..ptr] == done
  }

  /** *ptr++ = c */
  method Put(out: array<char>, ptr: nat, c: char, ghost done: string) returns (next: nat)
    requires At(out, ptr, done) && ptr < out.Length
    modifies out
    ensures next == ptr + 1 && At(out, next, done + [c])
  {
    out[ptr] := c;
    next := ptr + 1;
  }

  lemma Start(out: array<char>)
    ensures At(out, 0, "")
  {
  }

  /** The text before the NUL that was just put at ptr. */
  lemma Ended(out: array<char>, ptr: nat, done: string)
    requires At(out, ptr + 1, done + "\0")
    ensures ptr == |done| < out.Length && out[..ptr] == done
  {
    assert out[..ptr] == out[..ptr + 1][..ptr];
  }

  /** strcpy(ptr, s); ptr += strlen(s). */
  method PutAll(out: array<char>, ptr: nat, s: string, ghost done: string) returns (next: nat)
    requires At(out, ptr, done) && ptr + |s| <= out.Length
    modifies out
    ensures next == ptr + |s| && At(out, next, done + s)
  {
    next := ptr;
    var i := 0;
    while i < |s|
      invariant i <= |s| && next == ptr + i && At(out, next, done + s[..i])
    {
      assert done + s[..i] + [s[i]] == done + s[..i + 1];
      next := Put(out, next, s[i], done + s[..i]);
      i := i + 1;
    }
    assert s[..i] == s;
  }

  /** n tabs. */
  method PutTabs(out: array<char>, ptr: nat, n: int, ghost done: string) returns (next: nat)
    requires At(out, ptr, done) && ptr + (if n > 0 then n else 0) <= out.Length
    modifies out
    ensures next == ptr + (if n > 0 then n else 0) && At(out, next, done + Tabs(n))
  {
    next := ptr;
    var i := 0;
    assert done + Tabs(0) == done;
    while i < n
      invariant 0 <= i && (i <= n || i == 0) && next == ptr + i && At(out, next, done + Tabs(i))
    {
      assert done + Tabs(i) + ['\t'] == done + Tabs(i + 1);
      next := Put(out, next, '\t', done + Tabs(i));
      i := i + 1;
    }
    if n < 0 { assert Tabs(n) == Tabs(0); }
  }

  // ---------- print_string_ptr ----------

  method MeasureString(s: string) returns (len: nat)
    ensures len == StringRoom(s)
  {
    len := 0;
    var ptr := 0;
    assert s[0..] == s;
    while ptr < |s|
      invariant ptr <= |s| && len + StringRoom(s[ptr..]) == StringRoom(s)
    {
      assert s[ptr..][1..] == s[ptr + 1..];
      var token := s[ptr];
      len := len + 1;
      if ShortEscape(token) {
        len := len + 1;
      } else if token as nat < 32 {
        len := len + 5;
      }
      ptr := ptr + 1;
    }
  }

  /** The character behind a backslash, or four hexadecimal digits behind a u. */
  method PutBehind(out: array<char>, ptr: nat, c: char, ghost done: string) returns (next: nat)
    requires At(out, ptr, done) && !Plain(c) && ptr + |EscapeChar(c)| <= out.Length + 1
    modifies out
    ensures next == ptr + |EscapeChar(c)| - 1 && At(out, next, done + EscapeChar(c)[1..])
  {
    hide At;
    if c == '\\' || c == '\"' {
      next := Put(out, ptr, c, done);
    } else if c == 8 as char {
      next := Put(out, ptr, 'b', done);
    } else if c == 12 as char {
      next := Put(out, ptr, 'f', done);
    } else if c == '\n' {
      next := Put(out, ptr, 'n', done);
    } else if c == '\r' {
      next := Put(out, ptr, 'r', done);
    } else if c == '\t' {
      next := Put(out, ptr, 't', done);
    } else {
      var hex := "u00" + [HexDigit(c as nat / 16 % 16), HexDigit(c as nat % 16)];
      assert hex == EscapeChar(c)[1..];
      next := PutAll(out, ptr, hex, done);
    }
  }

  /** One turn of the writing loop of print_string_ptr. */
  method PutEscaped(out: array<char>, ptr: nat, c: char, ghost done: string) returns (next: nat)
    requires At(out, ptr, done) && ptr + |EscapeChar(c)| <= out.Length
    modifies out
    ensures next == ptr + |EscapeChar(c)| && At(out, next, done + EscapeChar(c))
  {
    hide At;
    if c as nat > 31 && c != '\"' && c != '\\' {
      next := Put(out, ptr, c, done);
    } else {
      next := Put(out, ptr, '\\', done);
      next := PutBehind(out, next, c, done + "\\");
      BackslashFirst(c, done);
    }
  }

  lemma BackslashFirst(c: char, done: string)
    requires !Plain(c)
    ensures done + "\\" + EscapeChar(c)[1..] == done + EscapeChar(c)
  {
    assert EscapeChar(c) == "\\" + EscapeChar(c)[1..];
  }

  lemma EscapeStep(s: string, ptr: nat, done: string)
    requires ptr < |s|
    ensures done + Escape(s[ptr..]) == done + EscapeChar(s[ptr]) + Escape(s[ptr + 1..])
  {
    hide EscapeChar;
    assert s[ptr..][1..] == s[ptr + 1..];
  }

  /** The buffer is used up to its last character, the NUL. */
  method PrintStringPtr(s: string) returns (out: array<char>)
    ensures fresh(out) && out[..] == PrintString(s) + "\0"
  {
    hide Escape, EscapeChar;
    var len := MeasureString(s);
    StringRoomIsExact(s);
    out := new char[len + 3];
    ghost var done := "";
    var ptr2 := Put(out, 0, '\"', done);
    done := "\"";
    var ptr := 0;
    assert s[0..] == s;
    while ptr < |s|
      invariant ptr <= |s| && At(out, ptr2, done) && "\"" + Escape(s) == done + Escape(s[ptr..])
    {
      EscapeStep(s, ptr, done);
      ptr2 := PutEscaped(out, ptr2, s[ptr], done);
      done := done + EscapeChar(s[ptr]);
      ptr := ptr + 1;
    }
    EscapeEnds(s, ptr, done);
    ptr2 := Put(out, ptr2, '\"', done);
    ptr2 := Put(out, ptr2, '\0', done + "\"");
    assert out[..] == out[..ptr2];
  }

  lemma EscapeEnds(s: string, ptr: nat, done: string)
    requires ptr == |s|
    ensures done + Escape(s[ptr..]) == done
  {
  }

  // ---------- print_number ----------

  lemma {:induction false} DigitsFit(n: nat, k: nat)
    requires k > 0 && n < Pow10(k)
    ensures |Digits(n)| <= k
    decreases k
  {
    if n >= 10 {
      DigitsFit(n / 10, k - 1);
    }
  }

  function Pow10(k: nat): nat {
    if k == 0 then 1 else 10 * Pow10(k - 1)
  }

  lemma TenDigits()
    ensures Pow10(10) == 10_000_000_000
  {
    assert Pow10(5) == 100_000;
    assert Pow10(10) == 10 * (10 * (10 * (10 * (10 * Pow10(5)))));
  }

  lemma NumberFits(n: int)
    requires INT_MIN <= n <= INT_MAX
    ensures |PrintNumber(n)| <= 11
  {
    hide Digits, Pow10;
    TenDigits();
    DigitsFit(if n < 0 then -n else n, 10);
  }

  /** A C int and its NUL fit the 21 characters allocated for it. */
  method PrintNumberText(n: int) returns (out: string)
    requires INT_MIN <= n <= INT_MAX
    ensures out == PrintNumber(n)
  {
    hide PrintNumber, At;
    NumberFits(n);
    var str := new char[21];
    Start(str);
    var end := PutAll(str, 0, PrintNumber(n), "");
    assert "" + PrintNumber(n) == PrintNumber(n);
    var all := Put(str, end, '\0', PrintNumber(n));
    Ended(str, end, PrintNumber(n));
    out := str[..end];
  }

  // ---------- print_array ----------

  method MeasureArray(entries: seq<string>, fmt: bool) returns (len: nat)
    ensures len == 5 + ArrayRoom(entries, fmt)
  {
    len := 5;
    var i := 0;
    assert entries[0..] == entries;
    while i < |entries|
      invariant i <= |entries| && len + ArrayRoom(entries[i..], fmt) == 5 + ArrayRoom(entries, fmt)
    {
      assert entries[i..][1..] == entries[i + 1..];
      len := len + |entries[i]| + 2 + Flag(fmt);
      i := i + 1;
    }
  }

  /** Compose the entries of a non-empty array in a buffer of the measured length. */
  method ComposeArray(entries: seq<string>, fmt: bool) returns (text: string)
    requires entries != []
    ensures text == "[" + JoinArray(entries, fmt) + "]"
  {
    hide At, JoinArray;
    var len := MeasureArray(entries, fmt);
    var out := new char[len];
    Start(out);
    ghost var done := "[";
    var ptr: nat := Put(out, 0, '[', "");
    assert "" + "[" == "[";
    var i := 0;
    assert entries[0..] == entries;
    while i < |entries|
      invariant i <= |entries| && At(out, ptr, done) && out.Length == len
      invariant "[" + JoinArray(entries, fmt) == done + JoinArray(entries[i..], fmt)
      invariant ptr + ArrayRoom(entries[i..], fmt) + 2 <= len
    {
      assert entries[i..][1..] == entries[i + 1..] && entries[i..][0] == entries[i];
      ghost var more := JoinArray(entries[i + 1..], fmt);
      JoinArrayStep(done, entries[i..], fmt);
      ptr := PutAll(out, ptr, entries[i], done);
      done := done + entries[i];
      assert done + [] == done;
      if i != |entries| - 1 {
        ptr := Put(out, ptr, ',', done);
        done := done + ",";
        assert done + [] == done;
        if fmt {
          ptr := Put(out, ptr, ' ', done);
        }
        done := done + If(fmt, " ");
      }
      i := i + 1;
    }
    JoinNothing(fmt);
    assert done + [] == done;
    ptr := Put(out, ptr, ']', done);
    var end := Put(out, ptr, '\0', done + "]");
    Ended(out, ptr, done + "]");
    text := out[..ptr];
  }

  lemma JoinNothing(fmt: bool)
    ensures JoinArray([], fmt) == []
  {
  }

  lemma JoinArrayStep(done: string, entries: seq<string>, fmt: bool)
    requires entries != []
    ensures done + JoinArray(entries, fmt)
      == (if |entries| == 1 then done + entries[0] else done + entries[0] + "," + If(fmt, " ")) + JoinArray(entries[1..], fmt)
  {
  }

  // ---------- print_object ----------

  method MeasureObject(names: seq<string>, entries: seq<string>, depth: nat, fmt: bool) returns (len: nat)
    requires |names| == |entries|
    ensures len == 7 + (if fmt then depth else 0) + ObjectRoom(names, entries, depth, fmt)
  {
    len := 7 + if fmt then depth else 0;
    var i := 0;
    assert entries[0..] == entries && names[0..] == names;
    while i < |entries|
      invariant i <= |entries|
      invariant len + ObjectRoom(names[i..], entries[i..], depth, fmt) == 7 + (if fmt then depth else 0) + ObjectRoom(names, entries, depth, fmt)
    {
      assert entries[i..][1..] == entries[i + 1..] && names[i..][1..] == names[i + 1..];
      len := len + |entries[i]| + |names[i]| + 2 + if fmt then 2 + depth else 0;
      i := i + 1;
    }
  }

  /** One member: indentation, name, colon, value, comma unless last, line break. */
  function MemberText(name: string, entry: string, last: bool, depth: nat, fmt: bool): string {
    If(fmt, Tabs(depth)) + name + ":" + If(fmt, "\t") + entry + (if last then [] else ",") + If(fmt, "\n")
  }

  lemma JoinObjectStep(names: seq<string>, entries: seq<string>, depth: nat, fmt: bool)
    requires |names| == |entries| > 0
    ensures JoinObject(names, entries, depth, fmt)
      == MemberText(names[0], entries[0], |entries| == 1, depth, fmt) + JoinObject(names[1..], entries[1..], depth, fmt)
  {
  }

  /** if (c) *ptr++ = x */
  method PutIf(out: array<char>, ptr: nat, cond: bool, c: char, ghost done: string) returns (next: nat)
    requires At(out, ptr, done) && (cond ==> ptr < out.Length)
    modifies out
    ensures next == ptr + Flag(cond) && At(out, next, done + If(cond, [c]))
  {
    next := ptr;
    if cond {
      next := Put(out, ptr, c, done);
    } else {
      assert done + [] == done;
    }
  }

  method PutMember(out: array<char>, ptr: nat, name: string, entry: string, last: bool, depth: nat, fmt: bool, ghost done: string)
      returns (next: nat)
    requires At(out, ptr, done) && ptr + |entry| + |name| + 2 + (if fmt then 2 + depth else 0) <= out.Length
    modifies out
    ensures At(out, next, done + MemberText(name, entry, last, depth, fmt))
    ensures next <= ptr + |entry| + |name| + 2 + (if fmt then 2 + depth else 0)
  {
    hide At, Tabs, MemberText, If;
    next := if fmt then depth else 0;
    next := PutTabs(out, ptr, next, done);
    ghost var d := done + Tabs(if fmt then depth else 0);
    next := PutAll(out, next, name, d);
    next := Put(out, next, ':', d + name);
    next := PutIf(out, next, fmt, '\t', d + name + ":");
    next := PutAll(out, next, entry, d + name + ":" + If(fmt, "\t"));
    next := PutIf(out, next, !last, ',', d + name + ":" + If(fmt, "\t") + entry);
    next := PutIf(out, next, fmt, '\n', d + name + ":" + If(fmt, "\t") + entry + If(!last, ","));
    MemberIs(done, name, entry, last, depth, fmt);
  }

  lemma MemberIs(done: string, name: string, entry: string, last: bool, depth: nat, fmt: bool)
    ensures done + Tabs(if fmt then depth else 0) + name + ":" + If(fmt, "\t") + entry + If(!last, ",") + If(fmt, "\n")
      == done + MemberText(name, entry, last, depth, fmt)
  {
    hide Tabs;
    NoTabs();
    var ind := If(fmt, Tabs(depth));
    assert Tabs(if fmt then depth else 0) == ind;
    Regroup(done, ind, name);
    Regroup(done, ind + name, ":");
    Regroup(done, ind + name + ":", If(fmt, "\t"));
    Regroup(done, ind + name + ":" + If(fmt, "\t"), entry);
    Regroup(done, ind + name + ":" + If(fmt, "\t") + entry, If(!last, ","));
    Regroup(done, ind + name + ":" + If(fmt, "\t") + entry + If(!last, ","), If(fmt, "\n"));
  }

  lemma NoTabs()
    ensures Tabs(0) == []
  {
  }

  /** Compose the members of a non-empty object in a buffer of the measured length. depth is that of
      the members, one more than the object's. */
  method ComposeObject(names: seq<string>, entries: seq<string>, depth: nat, fmt: bool) returns (text: string)
    requires |names| == |entries| > 0 && depth > 0
    ensures text == "{" + If(fmt, "\n") + JoinObject(names, entries, depth, fmt) + If(fmt, Tabs(depth - 1)) + "}"
  {
    hide MemberText, JoinObject, At, Tabs;
    var len := MeasureObject(names, entries, depth, fmt);
    var out := new char[len];
    Start(out);
    ghost var open := "{" + If(fmt, "\n");
    var ptr: nat := Put(out, 0, '{', "");
    assert "" + "{" == "{" && "{" + [] == "{";
    if fmt {
      ptr := Put(out, ptr, '\n', "{");
    }
    ghost var done := open;
    var i := 0;
    assert entries[0..] == entries && names[0..] == names;
    while i < |entries|
      invariant i <= |entries| && At(out, ptr, done) && out.Length == len
      invariant open + JoinObject(names, entries, depth, fmt) == done + JoinObject(names[i..], entries[i..], depth, fmt)
      invariant ptr + ObjectRoom(names[i..], entries[i..], depth, fmt) + 2 + (if fmt then depth - 1 else 0) <= len
    {
      assert entries[i..][1..] == entries[i + 1..] && names[i..][1..] == names[i + 1..];
      JoinObjectStep(names[i..], entries[i..], depth, fmt);
      ghost var m := MemberText(names[i], entries[i], i == |entries| - 1, depth, fmt);
      ghost var more := JoinObject(names[i + 1..], entries[i + 1..], depth, fmt);
      assert done + (m + more) == done + m + more;
      ptr := PutMember(out, ptr, names[i], entries[i], i == |entries| - 1, depth, fmt, done);
      done := done + m;
      i := i + 1;
    }
    NoMembers(depth, fmt);
    assert done + [] == done;
    if fmt {
      ptr := PutTabs(out, ptr, depth - 1, done);
    }
    done := done + If(fmt, Tabs(depth - 1));
    ptr := Put(out, ptr, '}', done);
    var end := Put(out, ptr, '\0', done + "}");
    Ended(out, ptr, done + "}");
    text := out[..ptr];
  }

  lemma NoMembers(depth: nat, fmt: bool)
    ensures JoinObject([], [], depth, fmt) == []
  {
  }

  /** An object without members. */
  method PrintEmptyObject(depth: nat, fmt: bool) returns (text: string)
    ensures text == "{" + If(fmt, "\n" + Tabs(depth - 1)) + "}"
  {
    hide At, Tabs;
    var out := new char[if fmt then depth + 4 else 3];
    Start(out);
    ghost var done := "{";
    var ptr: nat := Put(out, 0, '{', "");
    assert "" + "{" == "{";
    if fmt {
      ptr := Put(out, ptr, '\n', done);
      ptr := PutTabs(out, ptr, depth - 1, done + "\n");
    }
    done := done + If(fmt, "\n" + Tabs(depth - 1));
    assert if fmt then "{" + "\n" + Tabs(depth - 1) == done else done == "{";
    ptr := Put(out, ptr, '}', done);
    var end := Put(out, ptr, '\0', done + "}");
    Ended(out, ptr, done + "}");
    text := out[..ptr];
  }

  // ---------- print_value ----------

  /** cJSON's print_value, through all its buffers. */
  method PrintValue(t: Json, depth: nat, fmt: bool) returns (text: string)
    requires Representable(t)
    ensures text == Print(t, depth, fmt)
    decreases t
  {
    match t
    case Null => text := "null";
    case False => text := "false";
    case True => text := "true";
    case Number(n) => text := PrintNumberText(n);
    case String(s) =>
      var out := PrintStringPtr(s);
      text := out[..out.Length - 1];
    case Array(items) =>
      if items == [] {
        text := "[]";
      } else {
        text := PrintArray(items, depth + 1, fmt);
      }
    case Object(ms) =>
      if ms == [] {
        text := PrintEmptyObject(depth, fmt);
      } else {
        text := PrintObject(ms, depth + 1, fmt);
      }
  }

  method PrintArray(items: seq<Json>, depth: nat, fmt: bool) returns (text: string)
    requires items != [] && forall i :: 0 <= i < |items| ==> Representable(items[i])
    ensures text == "[" + PrintItems(items, depth, fmt) + "]"
    decreases items
  {
    hide Print, PrintItems, Representable, JoinArray;
    var entries: seq<string> := [];
    var i := 0;
    assert items[0..] == items;
    while i < |items|
      invariant i <= |items| && |entries| == i && entries + Texts(items[i..], depth, fmt) == Texts(items, depth, fmt)
    {
      var ret := PrintValue(items[i], depth, fmt);
      assert items[i..][1..] == items[i + 1..];
      assert entries + ([ret] + Texts(items[i + 1..], depth, fmt)) == entries + [ret] + Texts(items[i + 1..], depth, fmt);
      entries := entries + [ret];
      i := i + 1;
    }
    assert entries + [] == entries;
    JoinArrayIsPrintItems(items, depth, fmt);
    text := ComposeArray(entries, fmt);
  }

  lemma NextTexts(ms: seq<Member>, i: nat, entries: seq<string>, depth: nat, fmt: bool)
    requires i < |ms|
    ensures entries + Texts(Values(ms[i..]), depth, fmt) == entries + [Print(ms[i].value, depth, fmt)] + Texts(Values(ms[i + 1..]), depth, fmt)
  {
    hide Print;
    assert ms[i..][1..] == ms[i + 1..];
    assert Values(ms[i..])[1..] == Values(ms[i + 1..]);
  }

  lemma NextNames(ms: seq<Member>, i: nat, names: seq<string>)
    requires i < |ms|
    ensures names + Names(ms[i..]) == names + [PrintString(ms[i].name)] + Names(ms[i + 1..])
  {
    hide PrintString;
    assert ms[i..][1..] == ms[i + 1..];
  }

  lemma NoMoreTexts(ms: seq<Member>, entries: seq<string>, names: seq<string>, depth: nat, fmt: bool)
    ensures entries + Texts(Values(ms[|ms|..]), depth, fmt) == entries && names + Names(ms[|ms|..]) == names
  {
  }

  method PrintObject(ms: seq<Member>, depth: nat, fmt: bool) returns (text: string)
    requires ms != [] && depth > 0 && forall i :: 0 <= i < |ms| ==> Representable(ms[i].value)
    ensures text == "{" + If(fmt, "\n") + PrintMembers(ms, depth, fmt) + If(fmt, Tabs(depth - 1)) + "}"
    decreases ms
  {
    hide Print, PrintMembers, PrintString, Representable, JoinObject, Tabs, Texts, Names, Values;
    var entries: seq<string>, names: seq<string> := [], [];
    var i := 0;
    assert ms[0..] == ms;
    while i < |ms|
      invariant i <= |ms| && |entries| == |names| == i
      invariant entries + Texts(Values(ms[i..]), depth, fmt) == Texts(Values(ms), depth, fmt)
      invariant names + Names(ms[i..]) == Names(ms)
    {
      var str := PrintStringPtr(ms[i].name);
      var name := str[..str.Length - 1];
      var ret := PrintValue(ms[i].value, depth, fmt);
      NextTexts(ms, i, entries, depth, fmt);
      NextNames(ms, i, names);
      names := names + [name];
      entries := entries + [ret];
      i := i + 1;
    }
    NoMoreTexts(ms, entries, names, depth, fmt);
    JoinObjectIsPrintMembers(ms, depth, fmt);
    text := ComposeObject(names, entries, depth, fmt);
  }

  // ---------- the measure never undercounts ----------

  /** What is allocated for the text of t. */
  function Allocated(t: Json, depth: nat, fmt: bool): nat {
    match t
    case Null => 5
    case False => 6
    case True => 5
    case Number(n) => 21
    case String(s) => StringRoom(s) + 3
    case Array(items) => if items == [] then 3 else 5 + ArrayRoom(Texts(items, depth + 1, fmt), fmt)
    case Object(ms) =>
      if ms == [] then (if fmt then depth + 4 else 3)
      else 7 + (if fmt then depth + 1 else 0) + ObjectRoom(Names(ms), Texts(Values(ms), depth + 1, fmt), depth + 1, fmt)
  }

  /** For every tree, depth and format, the text and its NUL fit what was measured for them. */
  lemma PrintFitsItsMeasure(t: Json, depth: nat, fmt: bool)
    requires Representable(t)
    ensures |Print(t, depth, fmt)| + 1 <= Allocated(t, depth, fmt)
  {
    hide PrintNumber, Escape, StringRoom;
    match t
    case Null =>
    case False =>
    case True =>
    case Number(n) => NumberFits(n);
    case String(s) => StringRoomIsExact(s);
    case Array(items) => JoinArrayIsPrintItems(items, depth + 1, fmt);
    case Object(ms) => JoinObjectIsPrintMembers(ms, depth + 1, fmt);
  }
}
